/**
 * CheckpointStore: the resume checkpoint of the writing pipeline, kept as
 * JSON files in a state directory (`agents/state_manager.py`).
 *
 * The directory is a map from file name to the decoded JSON it holds. Writes
 * go to a `.tmp` file that is then renamed over the target, so a reader of
 * the target sees either the old document or the new one, never a part.
 */
module CheckpointStore {
  import opened Wrappers
  import opened Text
  import opened Seqs
  import opened OrderedMaps

  const StateFile: string := "state.json"
  const PlanFile: string := "plan.json"
  const CheckpointFile: string := "checkpoint.json"
  const CacheFile: string := "context_cache.json"
  /** `checkpoint_file.with_suffix('.tmp')`. */
  const CheckpointTemp: string := "checkpoint.tmp"
  /** `context_cache_file.with_suffix('.tmp')`. */
  const CacheTemp: string := "context_cache.tmp"

  /**
   * A file's decoded JSON: the checkpoint object, the context cache (a JSON
   * object, so its keys are strings), or a document another component wrote
   * (the state and the plan), which this store only passes through.
   */
  datatype Doc =
    | CheckpointDoc(currentSectionId: int, completedSections: seq<int>, lastCheckpoint: string, canResume: bool)
    | CacheDoc(entries: seq<(string, string)>)
    | Foreign(json: string)

  type Files = map<string, Doc>

  /** What `load_checkpoint` returns. */
  datatype Loaded = Loaded(checkpoint: Doc, state: Doc, plan: Doc, contextCache: Doc)

  // ---------------------------------------------------------------- file-system steps

  /** `open(path, 'w')` and `json.dump`. */
  function Written(fs: Files, path: string, doc: Doc): Files
  {
    fs[path := doc]
  }

  /** `Path.replace`: the source's document under the target name, the source gone. */
  function Replaced(fs: Files, src: string, dst: string): Files
    requires src in fs
  {
    (fs - {src})[dst := fs[src]]
  }

  /** Both `unlink`s of `clear_checkpoint`, each only when the file exists. */
  function Cleared(fs: Files): Files
  {
    fs - {CheckpointFile, CacheFile}
  }

  // ---------------------------------------------------------------- save

  /** The checkpoint object `save_checkpoint` writes; `now` is `datetime.now().isoformat()`. */
  function CheckpointOf(currentSectionId: int, completed: seq<int>, now: string): Doc
  {
    CheckpointDoc(currentSectionId, completed, now, true)
  }

  /** `json.dump` turns the integer section ids into string keys. */
  function CacheEntry(e: (int, string)): (string, string)
  {
    (IntToString(e.0), e.1)
  }

  function CacheOf(summaries: seq<(int, string)>): Doc
  {
    CacheDoc(Map(summaries, CacheEntry))
  }

  /** The directory after the checkpoint's temp write and rename. */
  function CheckpointSaved(fs: Files, currentSectionId: int, completed: seq<int>, now: string): Files
  {
    Replaced(Written(fs, CheckpointTemp, CheckpointOf(currentSectionId, completed, now)), CheckpointTemp, CheckpointFile)
  }

  /** The directory after `save_checkpoint`: the cache is rewritten only for a non-empty dict. */
  function Saved(fs: Files, currentSectionId: int, completed: seq<int>, summaries: seq<(int, string)>, now: string): Files
  {
    var f := CheckpointSaved(fs, currentSectionId, completed, now);
    if summaries != [] then Replaced(Written(f, CacheTemp, CacheOf(summaries)), CacheTemp, CacheFile) else f
  }

  /** The files `save_checkpoint` may touch. */
  predicate Touched(path: string)
  {
    path == CheckpointFile || path == CheckpointTemp || path == CacheFile || path == CacheTemp
  }

  /**
   * After saving, the checkpoint holds the given section and completed list
   * and says it can resume; no temp file is left behind by a step that ran;
   * the cache is the new dict when there is one and is untouched otherwise;
   * every other file, the state and the plan among them, is as it was.
   */
  lemma SavedSpec(fs: Files, currentSectionId: int, completed: seq<int>, summaries: seq<(int, string)>, now: string)
    ensures var r := Saved(fs, currentSectionId, completed, summaries, now);
      && CheckpointFile in r
      && r[CheckpointFile] == CheckpointDoc(currentSectionId, completed, now, true)
      && CheckpointTemp !in r
      && (summaries != [] ==> CacheFile in r && r[CacheFile] == CacheOf(summaries) && CacheTemp !in r)
      && (summaries == [] ==> (CacheFile in r <==> CacheFile in fs) && (CacheFile in fs ==> r[CacheFile] == fs[CacheFile]))
      && (forall p :: !Touched(p) ==> (p in r <==> p in fs))
      && (forall p :: !Touched(p) && p in fs ==> r[p] == fs[p])
  {
  }

  /**
   * Atomicity: the directory passes through four states while saving, and in
   * each of them the checkpoint and the cache are either what they were
   * before (present or absent) or exactly the new documents. Until the
   * rename the new checkpoint exists only as the temp file, so a crash there
   * loads exactly what loaded before the save.
   */
  function SaveSteps(fs: Files, currentSectionId: int, completed: seq<int>, summaries: seq<(int, string)>, now: string): (steps: seq<Files>)
    ensures |steps| == 5 && steps[0] == fs && steps[4] == Saved(fs, currentSectionId, completed, summaries, now)
  {
    var f1 := Written(fs, CheckpointTemp, CheckpointOf(currentSectionId, completed, now));
    var f2 := Replaced(f1, CheckpointTemp, CheckpointFile);
    var f3 := if summaries != [] then Written(f2, CacheTemp, CacheOf(summaries)) else f2;
    var f4 := if summaries != [] then Replaced(f3, CacheTemp, CacheFile) else f3;
    [fs, f1, f2, f3, f4]
  }

  /** In a directory `f`, `path` holds `before` (when it was there) or `after`: nothing in between. */
  predicate OldOrNew(f: Files, path: string, before: Files, after: Doc)
  {
    (path !in f && path !in before) || (path in f && (f[path] == after || (path in before && f[path] == before[path])))
  }

  lemma SaveAtomic(fs: Files, currentSectionId: int, completed: seq<int>, summaries: seq<(int, string)>, now: string, i: nat)
    requires i < 5
    ensures var steps := SaveSteps(fs, currentSectionId, completed, summaries, now);
      && OldOrNew(steps[i], CheckpointFile, fs, CheckpointOf(currentSectionId, completed, now))
      && OldOrNew(steps[i], CacheFile, fs, CacheOf(summaries))
      && (forall p :: !Touched(p) ==> (p in steps[i] <==> p in fs))
    // a crash after the temp write and before the rename loads the prior checkpoint unchanged
    ensures i < 2 ==> Load(SaveSteps(fs, currentSectionId, completed, summaries, now)[i]) == Load(fs)
    ensures i == 1 ==> var f1 := SaveSteps(fs, currentSectionId, completed, summaries, now)[1];
      CheckpointTemp in f1 && f1[CheckpointTemp] == CheckpointOf(currentSectionId, completed, now)
    // from the rename on, the checkpoint is the new one
    ensures i >= 2 ==> var f := SaveSteps(fs, currentSectionId, completed, summaries, now)[i];
      CheckpointFile in f && f[CheckpointFile] == CheckpointOf(currentSectionId, completed, now)
    // the prior cache stays in place until its own rename
    ensures i < 4 ==> var f := SaveSteps(fs, currentSectionId, completed, summaries, now)[i];
      (CacheFile in f <==> CacheFile in fs) && (CacheFile in fs ==> f[CacheFile] == fs[CacheFile])
  {
  }

  // ---------------------------------------------------------------- resume and load

  /** `can_resume`: state, plan and checkpoint all exist. */
  predicate Resumable(fs: Files)
  {
    StateFile in fs && PlanFile in fs && CheckpointFile in fs
  }

  /** `load_checkpoint`: the first missing file of checkpoint, state and plan is the error; the cache defaults to `{}`. */
  function Load(fs: Files): Result<Loaded, string>
  {
    if CheckpointFile !in fs then Err(CheckpointFile)
    else if StateFile !in fs then Err(StateFile)
    else if PlanFile !in fs then Err(PlanFile)
    else Ok(Loaded(fs[CheckpointFile], fs[StateFile], fs[PlanFile],
                   if CacheFile in fs then fs[CacheFile] else CacheDoc([])))
  }

  /**
   * Loading succeeds exactly when resuming is possible; it returns the four
   * files as stored, `{}` for an absent cache, and otherwise names a
   * missing file.
   */
  lemma LoadSpec(fs: Files)
    ensures Load(fs).Ok? <==> Resumable(fs)
    ensures Load(fs).Ok? ==> && Load(fs).value.checkpoint == fs[CheckpointFile]
                             && Load(fs).value.state == fs[StateFile] && Load(fs).value.plan == fs[PlanFile]
                             && (CacheFile !in fs ==> Load(fs).value.contextCache == CacheDoc([]))
                             && (CacheFile in fs ==> Load(fs).value.contextCache == fs[CacheFile])
    ensures Load(fs).Err? ==> Load(fs).error in {CheckpointFile, StateFile, PlanFile} && Load(fs).error !in fs
  {
  }

  /** Saving makes resuming possible exactly when the state and plan exist, and never removes them. */
  lemma SaveResumable(fs: Files, currentSectionId: int, completed: seq<int>, summaries: seq<(int, string)>, now: string)
    ensures Resumable(Saved(fs, currentSectionId, completed, summaries, now)) <==> StateFile in fs && PlanFile in fs
  {
    SavedSpec(fs, currentSectionId, completed, summaries, now);
    assert !Touched(StateFile) && !Touched(PlanFile);
  }

  /** A save followed by a load gives back what was saved, with the state and plan untouched. */
  lemma SaveLoadRoundTrip(fs: Files, currentSectionId: int, completed: seq<int>, summaries: seq<(int, string)>, now: string)
    requires StateFile in fs && PlanFile in fs
    ensures var l := Load(Saved(fs, currentSectionId, completed, summaries, now));
      && l.Ok?
      && l.value.checkpoint == CheckpointDoc(currentSectionId, completed, now, true)
      && l.value.state == fs[StateFile] && l.value.plan == fs[PlanFile]
      && (summaries != [] ==> l.value.contextCache == CacheOf(summaries))
  {
    SavedSpec(fs, currentSectionId, completed, summaries, now);
    assert !Touched(StateFile) && !Touched(PlanFile);
  }

  /** Clearing leaves no checkpoint, so resuming is no longer possible, and keeps every other file. */
  lemma ClearedSpec(fs: Files)
    ensures !Resumable(Cleared(fs)) && CheckpointFile !in Cleared(fs) && CacheFile !in Cleared(fs)
    ensures Load(Cleared(fs)) == Err(CheckpointFile)
    ensures forall p :: p != CheckpointFile && p != CacheFile ==> (p in Cleared(fs) <==> p in fs)
    ensures forall p :: p != CheckpointFile && p != CacheFile && p in fs ==> Cleared(fs)[p] == fs[p]
  {
  }

  /** Distinct section ids give distinct cache keys, so the cache keeps every summary. */
  lemma CacheKeysDistinct(a: int, b: int)
    requires a != b
    ensures IntToString(a) != IntToString(b)
  {
    if a >= 0 && b >= 0 {
      NatDigitsDistinct(a, b);
    } else if a < 0 && b < 0 {
      NatDigitsDistinct(-a, -b);
      var x, y := NatToString(-a), NatToString(-b);
      assert ("-" + x)[1..] == x && ("-" + y)[1..] == y;
    } else if a < 0 {
      var y := NatToString(b);
      assert ("-" + NatToString(-a))[0] == '-' && IsDigit(y[0]);
    } else {
      var x := NatToString(a);
      assert ("-" + NatToString(-b))[0] == '-' && IsDigit(x[0]);
    }
  }

  lemma NatDigitsDistinct(a: nat, b: nat)
    requires a != b
    ensures NatToString(a) != NatToString(b)
  {
    NatToStringRoundTrip(a);
    NatToStringRoundTrip(b);
  }

  /** A cached key of a non-negative section id reads back as that id. */
  lemma CacheKeyRoundTrip(summaries: seq<(int, string)>, i: nat)
    requires i < |summaries| && summaries[i].0 >= 0
    ensures var e := CacheOf(summaries).entries;
      && |e| == |summaries| && IsDigits(e[i].0) && DigitsValue(e[i].0) == summaries[i].0 && e[i].1 == summaries[i].1
  {
    NatToStringRoundTrip(summaries[i].0);
  }

  // ---------------------------------------------------------------- the objects

  /** The state directory: its files, changed in place by the file-system calls. */
  class StateDir {
    var files: Files

    constructor(files: Files)
      ensures this.files == files
    {
      this.files := files;
    }

    /** Writes a whole document. */
    method Write(path: string, doc: Doc)
      modifies this
      ensures files == Written(old(files), path, doc)
    {
      files := files[path := doc];
    }

    /** Renames `src` over `dst`. */
    method Replace(src: string, dst: string)
      requires src in files
      modifies this
      ensures files == Replaced(old(files), src, dst)
    {
      var doc := files[src];
      files := (files - {src})[dst := doc];
    }

    /** Removes a file that exists. */
    method Unlink(path: string)
      requires path in files
      modifies this
      ensures files == old(files) - {path}
    {
      files := files - {path};
    }
  }

  /** `StateManager`: the checkpoint operations over one state directory. */
  class StateManager {
    const dir: StateDir

    constructor(dir: StateDir)
      ensures this.dir == dir
    {
      this.dir := dir;
    }

    /** `can_resume`. */
    method CanResume() returns (b: bool)
      ensures b <==> Resumable(dir.files)
    {
      b := StateFile in dir.files && PlanFile in dir.files && CheckpointFile in dir.files;
    }

    /** `load_checkpoint`: reads checkpoint, state and plan in that order, then the cache if present. */
    method LoadCheckpoint() returns (r: Result<Loaded, string>)
      ensures r == Load(dir.files)
    {
      if CheckpointFile !in dir.files {
        return Err(CheckpointFile);
      }
      var checkpoint := dir.files[CheckpointFile];
      if StateFile !in dir.files {
        return Err(StateFile);
      }
      var state := dir.files[StateFile];
      if PlanFile !in dir.files {
        return Err(PlanFile);
      }
      var plan := dir.files[PlanFile];
      var cache := CacheDoc([]);
      if CacheFile in dir.files {
        cache := dir.files[CacheFile];
      }
      r := Ok(Loaded(checkpoint, state, plan, cache));
    }

    /** `save_checkpoint`: temp write and rename for the checkpoint, then for a non-empty cache. */
    method SaveCheckpoint(currentSectionId: int, completed: seq<int>, summaries: seq<(int, string)>, now: string)
      modifies dir
      ensures dir.files == Saved(old(dir.files), currentSectionId, completed, summaries, now)
    {
      dir.Write(CheckpointTemp, CheckpointOf(currentSectionId, completed, now));
      dir.Replace(CheckpointTemp, CheckpointFile);
      if summaries != [] {
        dir.Write(CacheTemp, CacheOf(summaries));
        dir.Replace(CacheTemp, CacheFile);
      }
    }

    /** `clear_checkpoint`: unlinks the checkpoint and the cache, each if it exists. */
    method ClearCheckpoint()
      modifies dir
      ensures dir.files == Cleared(old(dir.files))
    {
      if CheckpointFile in dir.files {
        dir.Unlink(CheckpointFile);
      }
      if CacheFile in dir.files {
        dir.Unlink(CacheFile);
      }
    }
  }
}
