/**
 * Pipeline: the section loop of `src/core/orchestrator.py`, which walks the
 * template's sections in order, skips completed ones, and drives each other
 * section through IN_PROGRESS to COMPLETED (or FAILED) in the status table
 * while recording its context.
 *
 * Section generation is still a placeholder in the source; whether it raises
 * for a section is the `raises` input.
 */
module Pipeline {
  import opened Wrappers
  import opened OrderedMaps
  import opened Seqs
  import SM = StatusMachine
  import SC = SectionContexts
  import CL = ConfigLoader

  function NameOf(s: CL.SectionConfig): string { s.name }

  /** The section names, in template order. */
  function Names(sections: seq<CL.SectionConfig>): seq<string>
  {
    Map(sections, NameOf)
  }

  lemma NamesLength(sections: seq<CL.SectionConfig>)
    ensures |Names(sections)| == |sections|
  {
  }

  lemma NameAt(sections: seq<CL.SectionConfig>, i: nat)
    requires i < |sections|
    ensures |Names(sections)| == |sections| && Names(sections)[i] == sections[i].name
  {
  }

  /** The placeholder context `_generate_section` records for a section. */
  function PlaceholderContext(name: string): SC.SectionContext
  {
    SC.SectionContext(name, "[Generated content for " + name + "]",
                      ["Point 1 from " + name, "Point 2 from " + name], [], 500, Some([]), None)
  }

  /** The table after a run, the sections generated in order, and the section that raised, if one did. */
  datatype Outcome = Outcome(table: SM.Table, generated: seq<string>, failed: Option<string>)

  /** A section driven through IN_PROGRESS to `last`. */
  function Driven(m: SM.Table, name: string, last: SM.SectionStatus): SM.Table
  {
    Put(Put(m, name, SM.InProgress), name, last)
  }

  /** The loop of `generate_paper` over the remaining names. */
  function Run(m: SM.Table, names: seq<string>, raises: string -> bool): Outcome
    decreases |names|
  {
    if names == [] then Outcome(m, [], None)
    else
      var n := names[0];
      if SM.StatusIn(m, n) == SM.Completed then Run(m, names[1..], raises)
      else if raises(n) then Outcome(Driven(m, n, SM.Failed), [], Some(n))
      else
        var o := Run(Driven(m, n, SM.Completed), names[1..], raises);
        Outcome(o.table, [n] + o.generated, o.failed)
  }

  /** Driving a section changes its own status only. */
  lemma DrivenGet(m: SM.Table, name: string, last: SM.SectionStatus, k: string)
    ensures Get(Driven(m, name, last), k) == if k == name then Some(last) else Get(m, k)
    ensures SM.StatusIn(Driven(m, name, last), k) == if k == name then last else SM.StatusIn(m, k)
  {
    GetPut(m, name, SM.InProgress, k);
    GetPut(Put(m, name, SM.InProgress), name, last, k);
  }

  /** The run generates only sections that were not completed, are named, and do not raise. */
  lemma {:induction false} RunGenerated(m: SM.Table, names: seq<string>, raises: string -> bool, x: string)
    requires x in Run(m, names, raises).generated
    ensures x in names && SM.StatusIn(m, x) != SM.Completed && !raises(x)
    decreases |names|
  {
    var n := names[0];
    if SM.StatusIn(m, n) == SM.Completed {
      RunGenerated(m, names[1..], raises, x);
    } else if x != n {
      RunGenerated(Driven(m, n, SM.Completed), names[1..], raises, x);
      DrivenGet(m, n, SM.Completed, x);
    }
  }

  /** A section that raised is one of the names, ends FAILED, and was not generated. */
  lemma {:induction false} RunFailed(m: SM.Table, names: seq<string>, raises: string -> bool)
    requires Run(m, names, raises).failed.Some?
    ensures var o := Run(m, names, raises);
      o.failed.value in names && SM.StatusIn(o.table, o.failed.value) == SM.Failed && o.failed.value !in o.generated
    decreases |names|
  {
    var n := names[0];
    if SM.StatusIn(m, n) == SM.Completed {
      RunFailed(m, names[1..], raises);
    } else if raises(n) {
      DrivenGet(m, n, SM.Failed, n);
    } else {
      var d := Driven(m, n, SM.Completed);
      RunFailed(d, names[1..], raises);
      DrivenGet(m, n, SM.Completed, n);
      RunSkipsGenerated(d, names[1..], raises);
    }
  }

  /** A section the run neither generates nor fails keeps its entry. */
  lemma {:induction false} RunUntouched(m: SM.Table, names: seq<string>, raises: string -> bool, k: string)
    requires k !in Run(m, names, raises).generated && Run(m, names, raises).failed != Some(k)
    ensures Get(Run(m, names, raises).table, k) == Get(m, k)
    decreases |names|
  {
    if names != [] {
      var n := names[0];
      if SM.StatusIn(m, n) == SM.Completed {
        RunUntouched(m, names[1..], raises, k);
      } else if raises(n) {
        DrivenGet(m, n, SM.Failed, k);
      } else {
        var o := Run(Driven(m, n, SM.Completed), names[1..], raises);
        assert k != n && k !in o.generated;
        RunUntouched(Driven(m, n, SM.Completed), names[1..], raises, k);
        DrivenGet(m, n, SM.Completed, k);
      }
    }
  }

  /** A generated section ends COMPLETED. */
  lemma {:induction false} RunGeneratedCompleted(m: SM.Table, names: seq<string>, raises: string -> bool, k: string)
    requires k in Run(m, names, raises).generated
    ensures SM.StatusIn(Run(m, names, raises).table, k) == SM.Completed
    decreases |names|
  {
    var n := names[0];
    var d := Driven(m, n, SM.Completed);
    if SM.StatusIn(m, n) == SM.Completed {
      RunGeneratedCompleted(m, names[1..], raises, k);
    } else if k in Run(d, names[1..], raises).generated {
      RunGeneratedCompleted(d, names[1..], raises, k);
    } else {
      DrivenGet(m, n, SM.Completed, n);
      RunSkipsGenerated(d, names[1..], raises);
      RunUntouched(d, names[1..], raises, n);
    }
  }

  /** A section that is completed is never generated or failed again. */
  lemma {:induction false} RunSkipsGenerated(m: SM.Table, names: seq<string>, raises: string -> bool)
    ensures var o := Run(m, names, raises);
      forall x :: SM.StatusIn(m, x) == SM.Completed ==> x !in o.generated && o.failed != Some(x)
    decreases |names|
  {
    if names != [] {
      var n := names[0];
      if SM.StatusIn(m, n) == SM.Completed {
        RunSkipsGenerated(m, names[1..], raises);
      } else if !raises(n) {
        var d := Driven(m, n, SM.Completed);
        RunSkipsGenerated(d, names[1..], raises);
        forall x | SM.StatusIn(m, x) == SM.Completed ensures SM.StatusIn(d, x) == SM.Completed {
          DrivenGet(m, n, SM.Completed, x);
        }
      }
    }
  }

  /** Without a failure, every named section ends COMPLETED. */
  lemma {:induction false} RunCompletesAll(m: SM.Table, names: seq<string>, raises: string -> bool, k: string)
    requires Run(m, names, raises).failed.None?
    requires k in names
    ensures SM.StatusIn(Run(m, names, raises).table, k) == SM.Completed
    decreases |names|
  {
    var n := names[0];
    if SM.StatusIn(m, n) == SM.Completed {
      if k == n {
        RunSkipsGenerated(m, names[1..], raises);
        RunUntouched(m, names[1..], raises, k);
      } else {
        RunCompletesAll(m, names[1..], raises, k);
      }
    } else {
      var d := Driven(m, n, SM.Completed);
      if k == n {
        DrivenGet(m, n, SM.Completed, n);
        RunSkipsGenerated(d, names[1..], raises);
        RunUntouched(d, names[1..], raises, k);
      } else {
        RunCompletesAll(d, names[1..], raises, k);
      }
    }
  }

  /** Keys stay as they were plus the names. */
  lemma {:induction false} RunKeys(m: SM.Table, names: seq<string>, raises: string -> bool)
    requires DistinctKeys(m)
    ensures DistinctKeys(Run(m, names, raises).table)
    ensures forall k :: k in Keys(Run(m, names, raises).table) ==> k in Keys(m) || k in names
    decreases |names|
  {
    if names != [] {
      var n := names[0];
      PutDistinct(m, n, SM.InProgress);
      PutDistinct(Put(m, n, SM.InProgress), n, SM.Failed);
      PutDistinct(Put(m, n, SM.InProgress), n, SM.Completed);
      PutKeys(m, n, SM.InProgress);
      PutKeys(Put(m, n, SM.InProgress), n, SM.Failed);
      PutKeys(Put(m, n, SM.InProgress), n, SM.Completed);
      if SM.StatusIn(m, n) == SM.Completed {
        RunKeys(m, names[1..], raises);
      } else if !raises(n) {
        RunKeys(Driven(m, n, SM.Completed), names[1..], raises);
      }
    }
  }

  /**
   * `_finalize_paper` runs after a run without failure whenever the table
   * holds only template sections, as it does after `initialize_sections`.
   */
  lemma RunFinalizes(m: SM.Table, names: seq<string>, raises: string -> bool)
    requires DistinctKeys(m)
    requires forall k :: k in Keys(m) ==> k in names
    requires Run(m, names, raises).failed.None?
    ensures SM.AllCompleted(Run(m, names, raises).table)
  {
    var t := Run(m, names, raises).table;
    RunKeys(m, names, raises);
    forall i | 0 <= i < |t| ensures t[i].1 == SM.Completed {
      assert t[i].0 in Keys(t);
      RunCompletesAll(m, names, raises, t[i].0);
      GetAt(t, i);
    }
  }

  /** How `generate_paper` ends: normally, saying whether it finalised, or by re-raising for a section. */
  datatype RunResult = Finished(finalized: bool) | Raised(section: string)

  /** The outcome of a run seen from outside: the exception, or whether every status is COMPLETED. */
  function ResultOf(o: Outcome): RunResult
  {
    if o.failed.Some? then Raised(o.failed.value) else Finished(SM.AllCompleted(o.table))
  }

  /** `Orchestrator`: the template's sections with a status table and a context store. */
  class Orchestrator {
    const projectName: string
    const sections: seq<CL.SectionConfig>
    const stateManager: SM.StateManager
    const contextManager: SC.ContextManager

    ghost predicate Valid()
      reads this, stateManager, contextManager
    {
      stateManager.Valid() && contextManager.Valid()
    }

    /**
     * `__init__` without saved state: a status table of the template's
     * sections, all PENDING, and an empty context store.
     */
    constructor(projectName: string, config: CL.Config, now: string)
      ensures Valid()
      ensures this.projectName == projectName && sections == config.sections
      ensures fresh(stateManager) && fresh(contextManager)
      ensures stateManager.sectionStatus == SM.InitAll([], Names(config.sections))
      ensures contextManager.sections == [] && contextManager.sectionOrder == []
    {
      this.projectName := projectName;
      sections := config.sections;
      var sm := new SM.StateManager(projectName, now);
      sm.InitializeSections(Names(config.sections));
      stateManager := sm;
      contextManager := new SC.ContextManager();
    }

    /**
     * `_generate_section`: IN_PROGRESS, then the context is read; a raising
     * generator stops there, otherwise the placeholder context is recorded and
     * the section becomes COMPLETED.
     */
    method GenerateSection(sc: CL.SectionConfig, raises: string -> bool, now: string) returns (ok: bool)
      requires Valid()
      modifies stateManager, contextManager
      ensures Valid()
      ensures ok == !raises(sc.name)
      ensures ok ==> stateManager.sectionStatus == Driven(old(stateManager.sectionStatus), sc.name, SM.Completed)
      ensures !ok ==> stateManager.sectionStatus == Put(old(stateManager.sectionStatus), sc.name, SM.InProgress)
      ensures ok ==> contextManager.sectionOrder == old(contextManager.sectionOrder) + [sc.name]
      ensures !ok ==> contextManager.sectionOrder == old(contextManager.sectionOrder)
      ensures !ok ==> contextManager.sections == old(contextManager.sections)
      ensures ok ==> contextManager.sections == Put(old(contextManager.sections), sc.name, PlaceholderContext(sc.name))
      ensures contextManager.allCitations == old(contextManager.allCitations)
      ensures contextManager.allTermsDefined == old(contextManager.allTermsDefined)
      ensures ok ==> stateManager.currentSection == SM.FirstPending(stateManager.sectionStatus)
      ensures !ok ==> stateManager.currentSection == Some(sc.name)
      ensures stateManager.lastUpdated == Some(now)
    {
      stateManager.SetSectionStatus(sc.name, SM.InProgress, now);
      var context := contextManager.GetContextForSection(sc.name, sc.dependsOn);
      if raises(sc.name) {
        return false;
      }
      contextManager.AddSection(PlaceholderContext(sc.name));
      assert contextManager.allCitations == old(contextManager.allCitations) + [];
      assert contextManager.allTermsDefined == old(contextManager.allTermsDefined) + [];
      stateManager.SetSectionStatus(sc.name, SM.Completed, now);
      ok := true;
    }

    /**
     * The `try` around `_generate_section` in `generate_paper`: a section
     * that raises is marked FAILED and nothing is recorded for it. The ghost
     * parameters carry the store and the order as they were before the run.
     */
    method AttemptSection(sc: CL.SectionConfig, raises: string -> bool, now: string,
                          ghost store0: SC.Sections, ghost order0: seq<string>, ghost gen: seq<string>) returns (ok: bool)
      requires Valid()
      requires contextManager.sections == Recorded(store0, gen)
      requires contextManager.sectionOrder == order0 + gen
      modifies stateManager, contextManager
      ensures Valid()
      ensures ok == !raises(sc.name)
      ensures ok ==> stateManager.sectionStatus == Driven(old(stateManager.sectionStatus), sc.name, SM.Completed)
      ensures ok ==> contextManager.sectionOrder == order0 + (gen + [sc.name])
      ensures ok ==> contextManager.sections == Recorded(store0, gen + [sc.name])
      ensures !ok ==> stateManager.sectionStatus == Driven(old(stateManager.sectionStatus), sc.name, SM.Failed)
      ensures !ok ==> contextManager.sectionOrder == order0 + gen
      ensures !ok ==> contextManager.sections == Recorded(store0, gen)
      ensures contextManager.allCitations == old(contextManager.allCitations)
      ensures contextManager.allTermsDefined == old(contextManager.allTermsDefined)
      ensures ok ==> stateManager.currentSection == SM.FirstPending(stateManager.sectionStatus)
      ensures !ok ==> stateManager.currentSection == Some(sc.name)
      ensures stateManager.lastUpdated == Some(now)
    {
      ghost var before := stateManager.sectionStatus;
      ok := GenerateSection(sc, raises, now);
      if !ok {
        stateManager.SetSectionStatus(sc.name, SM.Failed, now);
        assert stateManager.sectionStatus == Driven(before, sc.name, SM.Failed);
      } else {
        RecordedSnoc(store0, gen, sc.name);
        Associative(order0, gen, [sc.name]);
      }
    }

    /**
     * One turn of the loop in `generate_paper`: a completed section is
     * skipped, any other is attempted. `go` is false when the loop stops.
     */
    method Visit(sc: CL.SectionConfig, raises: string -> bool, now: string,
                 ghost store0: SC.Sections, ghost order0: seq<string>, ghost gen: seq<string>) returns (go: bool)
      requires Valid()
      requires contextManager.sections == Recorded(store0, gen)
      requires contextManager.sectionOrder == order0 + gen
      modifies stateManager, contextManager
      ensures Valid()
      ensures go == (SM.StatusIn(old(stateManager.sectionStatus), sc.name) == SM.Completed || !raises(sc.name))
      ensures stateManager.sectionStatus == TurnTable(old(stateManager.sectionStatus), sc.name, raises)
      ensures contextManager.sectionOrder == order0 + (gen + TurnGenerated(old(stateManager.sectionStatus), sc.name, raises))
      ensures contextManager.sections == Recorded(store0, gen + TurnGenerated(old(stateManager.sectionStatus), sc.name, raises))
      ensures contextManager.allCitations == old(contextManager.allCitations)
      ensures contextManager.allTermsDefined == old(contextManager.allTermsDefined)
      ensures SM.StatusIn(old(stateManager.sectionStatus), sc.name) == SM.Completed ==>
        stateManager.currentSection == old(stateManager.currentSection) && stateManager.lastUpdated == old(stateManager.lastUpdated)
      ensures SM.StatusIn(old(stateManager.sectionStatus), sc.name) != SM.Completed ==> stateManager.lastUpdated == Some(now)
      ensures TurnGenerated(old(stateManager.sectionStatus), sc.name, raises) != [] ==>
        stateManager.currentSection == SM.FirstPending(stateManager.sectionStatus)
      ensures !go ==> stateManager.currentSection == Some(sc.name)
    {
      if stateManager.GetSectionStatus(sc.name) == SM.Completed {
        assert gen + [] == gen;
        return true;
      }
      go := AttemptSection(sc, raises, now, store0, order0, gen);
      if !go {
        assert gen + [] == gen;
      }
    }

    /**
     * `generate_paper`: the table ends as the run says, each generated
     * section's context is recorded in order (placeholder contexts add no
     * citations and no terms), and the result is the exception or whether
     * the paper was finalised. The current section is the one that raised,
     * else the first pending one after the last completion, and stays as it
     * was when nothing was attempted; the update time is `now` once some
     * section was attempted.
     */
    method GeneratePaper(raises: string -> bool, now: string) returns (r: RunResult)
      requires Valid()
      modifies stateManager, contextManager
      ensures Valid()
      ensures var o := Run(old(stateManager.sectionStatus), Names(sections), raises);
        && stateManager.sectionStatus == o.table
        && r == ResultOf(o)
        && contextManager.sectionOrder == old(contextManager.sectionOrder) + o.generated
        && contextManager.sections == Recorded(old(contextManager.sections), o.generated)
      ensures contextManager.allCitations == old(contextManager.allCitations)
      ensures contextManager.allTermsDefined == old(contextManager.allTermsDefined)
      ensures var o := Run(old(stateManager.sectionStatus), Names(sections), raises);
        && (o.failed.Some? ==> stateManager.currentSection == o.failed)
        && (o.failed.None? && o.generated != [] ==> stateManager.currentSection == SM.FirstPending(o.table))
        && (o.failed.None? && o.generated == [] ==> stateManager.currentSection == old(stateManager.currentSection))
        && (o.failed.Some? || o.generated != [] ==> stateManager.lastUpdated == Some(now))
        && (o.failed.None? && o.generated == [] ==> stateManager.lastUpdated == old(stateManager.lastUpdated))
    {
      ghost var store0 := contextManager.sections;
      ghost var m0 := stateManager.sectionStatus;
      ghost var order0 := contextManager.sectionOrder;
      ghost var names := Names(sections);
      ghost var generated: seq<string> := [];
      var i := 0;
      while i < |sections|
        invariant 0 <= i <= |sections|
        invariant Valid()
        invariant Run(m0, names, raises) == Prepended(generated, Run(stateManager.sectionStatus, names[i..], raises))
        invariant contextManager.sectionOrder == order0 + generated
        invariant contextManager.sections == Recorded(store0, generated)
        invariant contextManager.allCitations == old(contextManager.allCitations)
        invariant contextManager.allTermsDefined == old(contextManager.allTermsDefined)
        invariant generated == [] ==> stateManager.currentSection == old(stateManager.currentSection)
        invariant generated == [] ==> stateManager.lastUpdated == old(stateManager.lastUpdated)
        invariant generated != [] ==> stateManager.currentSection == SM.FirstPending(stateManager.sectionStatus)
        invariant generated != [] ==> stateManager.lastUpdated == Some(now)
      {
        NameAt(sections, i);
        ghost var m := stateManager.sectionStatus;
        ghost var turn := TurnGenerated(m, names[i], raises);
        var go := Visit(sections[i], raises, now, store0, order0, generated);
        if !go {
          assert turn == [] && generated + turn == generated;
          assert Run(m0, names, raises) == Outcome(stateManager.sectionStatus, generated, Some(names[i])) by {
            RunTurn(m, names, i, raises);
          }
          return Raised(sections[i].name);
        }
        assert Run(m0, names, raises) == Prepended(generated + turn, Run(stateManager.sectionStatus, names[i + 1..], raises)) by {
          RunTurn(m, names, i, raises);
          PrependedAppend(generated, turn, Run(stateManager.sectionStatus, names[i + 1..], raises));
        }
        generated := generated + turn;
        i := i + 1;
      }
      NamesLength(sections);
      assert names[i..] == [];
      assert Run(m0, names, raises).generated == generated + [];
      assert generated + [] == generated;
      var complete := stateManager.IsComplete();
      r := Finished(complete);
    }

    /** `resume` is `generate_paper`. */
    method Resume(raises: string -> bool, now: string) returns (r: RunResult)
      requires Valid()
      modifies stateManager, contextManager
      ensures Valid()
      ensures var o := Run(old(stateManager.sectionStatus), Names(sections), raises);
        && stateManager.sectionStatus == o.table && r == ResultOf(o)
        && contextManager.sectionOrder == old(contextManager.sectionOrder) + o.generated
        && contextManager.sections == Recorded(old(contextManager.sections), o.generated)
      ensures contextManager.allCitations == old(contextManager.allCitations)
      ensures contextManager.allTermsDefined == old(contextManager.allTermsDefined)
      ensures var o := Run(old(stateManager.sectionStatus), Names(sections), raises);
        && (o.failed.Some? ==> stateManager.currentSection == o.failed)
        && (o.failed.None? && o.generated != [] ==> stateManager.currentSection == SM.FirstPending(o.table))
        && (o.failed.None? && o.generated == [] ==> stateManager.currentSection == old(stateManager.currentSection))
    {
      r := GeneratePaper(raises, now);
    }

    /** `reset`: empties both the status table and the context store. */
    method Reset(now: string)
      modifies stateManager, contextManager
      ensures Valid()
      ensures stateManager.sectionStatus == [] && stateManager.currentSection == None
      ensures contextManager.sections == [] && contextManager.sectionOrder == []
      ensures contextManager.allCitations == [] && contextManager.allTermsDefined == []
    {
      stateManager.Reset(now);
      contextManager.Clear();
    }
  }

  /** The table after one turn of the loop. */
  function TurnTable(m: SM.Table, name: string, raises: string -> bool): SM.Table
  {
    if SM.StatusIn(m, name) == SM.Completed then m
    else Driven(m, name, if raises(name) then SM.Failed else SM.Completed)
  }

  /** The section one turn of the loop generates, if any. */
  function TurnGenerated(m: SM.Table, name: string, raises: string -> bool): seq<string>
  {
    if SM.StatusIn(m, name) == SM.Completed || raises(name) then [] else [name]
  }

  /** The run over the remaining names is one turn followed by the run over the rest. */
  lemma RunTurn(m: SM.Table, names: seq<string>, i: nat, raises: string -> bool)
    requires i < |names|
    ensures var n := names[i];
      Run(m, names[i..], raises) ==
        if SM.StatusIn(m, n) != SM.Completed && raises(n) then Outcome(TurnTable(m, n, raises), [], Some(n))
        else Prepended(TurnGenerated(m, n, raises), Run(TurnTable(m, n, raises), names[i + 1..], raises))
  {
    assert names[i..][0] == names[i] && names[i..][1..] == names[i + 1..];
  }

  /** The context store after the placeholder contexts of `gen` are added in order. */
  function Recorded(store: SC.Sections, gen: seq<string>): SC.Sections
    decreases |gen|
  {
    if gen == [] then store
    else
      var n := gen[|gen| - 1];
      Put(Recorded(store, gen[..|gen| - 1]), n, PlaceholderContext(n))
  }

  lemma RecordedSnoc(store: SC.Sections, gen: seq<string>, n: string)
    ensures Recorded(store, gen + [n]) == Put(Recorded(store, gen), n, PlaceholderContext(n))
  {
    assert (gen + [n])[..|gen|] == gen;
  }

  /** Every generated section holds its placeholder context; every other keeps what it had. */
  lemma {:induction false} RecordedGet(store: SC.Sections, gen: seq<string>, n: string)
    ensures Get(Recorded(store, gen), n) == if n in gen then Some(PlaceholderContext(n)) else Get(store, n)
    decreases |gen|
  {
    if gen != [] {
      var last := gen[|gen| - 1];
      var init := gen[..|gen| - 1];
      assert gen == init + [last];
      RecordedGet(store, init, n);
      GetPut(Recorded(store, init), last, PlaceholderContext(last), n);
    }
  }

  lemma PrependedAppend(gen: seq<string>, more: seq<string>, o: Outcome)
    ensures Prepended(gen, Prepended(more, o)) == Prepended(gen + more, o)
  {
    assert gen + (more + o.generated) == (gen + more) + o.generated;
  }

  lemma Associative(a: seq<string>, b: seq<string>, c: seq<string>)
    ensures (a + b) + c == a + (b + c)
  {
  }

  /** An outcome with sections generated before it. */
  function Prepended(gen: seq<string>, o: Outcome): Outcome
  {
    Outcome(o.table, gen + o.generated, o.failed)
  }

  /** A fresh orchestrator whose run raises nowhere finalises the paper and generates every section once. */
  lemma FreshRunFinalizes(names: seq<string>, raises: string -> bool)
    requires forall n :: n in names ==> !raises(n)
    ensures Run(SM.InitAll([], names), names, raises).failed.None?
    ensures SM.AllCompleted(Run(SM.InitAll([], names), names, raises).table)
  {
    var m := SM.InitAll([], names);
    NoFailure(m, names, raises);
    SM.InitAllDistinct([], names);
    forall k | k in Keys(m) ensures k in names {
      SM.InitAllSpec([], names, k);
    }
    RunFinalizes(m, names, raises);
  }

  /** A run over names none of which raises has no failure. */
  lemma {:induction false} NoFailure(m: SM.Table, names: seq<string>, raises: string -> bool)
    requires forall n :: n in names ==> !raises(n)
    ensures Run(m, names, raises).failed.None?
    decreases |names|
  {
    if names != [] {
      NoFailure(m, names[1..], raises);
      NoFailure(Driven(m, names[0], SM.Completed), names[1..], raises);
    }
  }
}
