/**
 * PlanRunner: the first-generation driver of the top-level `orchestrator.py`.
 * `initialize` validates the input and saves a fresh run state and a section
 * plan built from the template; `run` walks the plan, skipping sections
 * already completed, and records the section it is on. The two JSON files
 * are modelled as the optional `state` and `plan` fields: a field is `None`
 * when its file does not exist. Clock readings are the `now` parameters.
 */
module PlanRunner {
  import opened Wrappers
  import opened Text
  import IV = InputValidator
  import opened ConfigLoader

  /** The saved run state (`state.json`). */
  datatype RunState = RunState(
    config: IV.Config,
    currentSectionId: int,
    completedSections: seq<int>,
    failedSections: seq<int>,
    thesis: Option<string>,
    createdAt: string,
    updatedAt: string)

  /** One planned section (an entry of `plan.json`). */
  datatype SectionPlan = SectionPlan(id: int, title: string, objective: string, status: string)

  /** The saved plan (`plan.json`). */
  datatype Plan = Plan(topic: string, sections: seq<SectionPlan>, totalSections: nat, createdAt: string)

  datatype RunError = StateNotInitialized | PlanMissing

  /** The error `initialize` can raise: a rejected input. */
  datatype InitError = Invalid(error: IV.Error)

  // ---------------------------------------------------------------- initial state and plan

  /** `_create_initial_state`, then `_save_state` stamping `updated_at`. */
  function InitialState(config: IV.Config, now: string): (r: RunState)
    ensures r.config == config && r.thesis == None
    ensures r.currentSectionId == 0 && r.completedSections == [] && r.failedSections == []
  {
    RunState(config, 0, [], [], None, now, now)
  }

  const IntroductionObjective := "Introduce the topic, provide background, and state research objectives"
  const ReviewObjective := "Review existing research and identify gaps"
  const MethodObjective := "Describe research methods and approach"
  const ResultsObjective := "Present research findings and analysis"
  const DiscussionObjective := "Interpret findings and discuss implications"
  const ConclusionObjective := "Summarize findings and suggest future work"

  /** The objective of a title that names none of the usual sections. */
  function GenericObjective(title: string): string
  {
    "Address the requirements of the " + title + " section"
  }

  /** `_generate_section_objective`: keyword tests on the lower-cased title, in a fixed order. */
  function SectionObjective(title: string): string
  {
    var lower := Lower(title);
    if Contains(lower, "introduction") then IntroductionObjective
    else if Contains(lower, "literature") || Contains(lower, "review") then ReviewObjective
    else if Contains(lower, "methodology") || Contains(lower, "method") then MethodObjective
    else if Contains(lower, "result") || Contains(lower, "finding") then ResultsObjective
    else if Contains(lower, "discussion") then DiscussionObjective
    else if Contains(lower, "conclusion") then ConclusionObjective
    else GenericObjective(title)
  }

  /** The keyword rules of `_generate_section_objective` as a table: keywords and the objective they select. */
  const ObjectiveRules: seq<(seq<string>, string)> := [
    (["introduction"], IntroductionObjective),
    (["literature", "review"], ReviewObjective),
    (["methodology", "method"], MethodObjective),
    (["result", "finding"], ResultsObjective),
    (["discussion"], DiscussionObjective),
    (["conclusion"], ConclusionObjective)]

  /** Some keyword occurs in `lower`. */
  predicate AnyOccurs(lower: string, keywords: seq<string>)
  {
    exists k :: 0 <= k < |keywords| && Contains(lower, keywords[k])
  }

  /** The objective of the first rule with a keyword in `lower`, if any. */
  function FirstRule(lower: string, rules: seq<(seq<string>, string)>): (r: Option<string>)
    ensures r.Some? <==> exists j :: 0 <= j < |rules| && AnyOccurs(lower, rules[j].0)
    ensures r.Some? ==> exists j :: 0 <= j < |rules| && r.value == rules[j].1 && AnyOccurs(lower, rules[j].0)
  {
    if rules == [] then None
    else if AnyOccurs(lower, rules[0].0) then Some(rules[0].1)
    else
      var r := FirstRule(lower, rules[1..]);
      assert forall j :: 1 <= j < |rules| ==> rules[j] == rules[1..][j - 1];
      r
  }

  lemma OneOccurs(lower: string, a: string)
    ensures AnyOccurs(lower, [a]) <==> Contains(lower, a)
  {
    assert [a][0] == a;
  }

  lemma TwoOccur(lower: string, a: string, b: string)
    ensures AnyOccurs(lower, [a, b]) <==> Contains(lower, a) || Contains(lower, b)
  {
    assert [a, b][0] == a && [a, b][1] == b;
  }

  /** The first rule of a table decides when it matches; otherwise the rest of the table does. */
  lemma FirstRuleStep(lower: string, rules: seq<(seq<string>, string)>)
    requires rules != []
    ensures FirstRule(lower, rules) == if AnyOccurs(lower, rules[0].0) then Some(rules[0].1) else FirstRule(lower, rules[1..])
  {
  }

  /**
   * The objective is the one of the first rule of the table that matches the
   * lower-cased title, and the generic one when none does.
   */
  lemma ObjectiveByRules(title: string)
    ensures SectionObjective(title) ==
      match FirstRule(Lower(title), ObjectiveRules)
      case Some(o) => o
      case None => GenericObjective(title)
  {
    var lower := Lower(title);
    OneOccurs(lower, "introduction");
    TwoOccur(lower, "literature", "review");
    TwoOccur(lower, "methodology", "method");
    TwoOccur(lower, "result", "finding");
    OneOccurs(lower, "discussion");
    OneOccurs(lower, "conclusion");
    FirstRuleOfSix(lower, ObjectiveRules);
  }

  /** A table of six rules, tried in order. */
  lemma FirstRuleOfSix(lower: string, rules: seq<(seq<string>, string)>)
    requires |rules| == 6
    ensures FirstRule(lower, rules) ==
      if AnyOccurs(lower, rules[0].0) then Some(rules[0].1)
      else if AnyOccurs(lower, rules[1].0) then Some(rules[1].1)
      else if AnyOccurs(lower, rules[2].0) then Some(rules[2].1)
      else if AnyOccurs(lower, rules[3].0) then Some(rules[3].1)
      else if AnyOccurs(lower, rules[4].0) then Some(rules[4].1)
      else if AnyOccurs(lower, rules[5].0) then Some(rules[5].1)
      else None
  {
    FirstRuleStep(lower, rules);
    FirstRuleStep(lower, rules[1..]);
    FirstRuleStep(lower, rules[2..]);
    FirstRuleStep(lower, rules[3..]);
    FirstRuleStep(lower, rules[4..]);
    FirstRuleStep(lower, rules[5..]);
    assert rules[1..][1..] == rules[2..];
    assert rules[2..][1..] == rules[3..];
    assert rules[3..][1..] == rules[4..];
    assert rules[4..][1..] == rules[5..];
    assert rules[5..][1..] == [];
  }

  /** `_create_plan`: the i-th template title becomes section i, pending, with its objective. */
  function CreatePlan(config: IV.Config, now: string): (r: Plan)
    ensures r.topic == config.topic && r.totalSections == |r.sections| == |config.template|
    ensures forall i :: 0 <= i < |r.sections| ==>
      r.sections[i] == SectionPlan(i, config.template[i], SectionObjective(config.template[i]), "pending")
  {
    var sections := seq(|config.template|, i requires 0 <= i < |config.template| =>
      SectionPlan(i, config.template[i], SectionObjective(config.template[i]), "pending"));
    Plan(config.topic, sections, |sections|, now)
  }

  // ---------------------------------------------------------------- run

  /** One turn of the loop of `run`: a completed section is skipped, any other becomes current and the state is saved. */
  function Visit(st: RunState, section: SectionPlan, now: string): RunState
  {
    if section.id in st.completedSections then st
    else st.(currentSectionId := section.id, updatedAt := now)
  }

  /** The state after the loop of `run` has walked `sections`. */
  function Walk(st: RunState, sections: seq<SectionPlan>, now: string): RunState
    decreases |sections|
  {
    if sections == [] then st
    else Visit(Walk(st, sections[..|sections| - 1], now), sections[|sections| - 1], now)
  }

  /** The id of the last section not yet completed, if any. */
  function LastPending(sections: seq<SectionPlan>, completed: seq<int>): (r: Option<int>)
    ensures r.Some? ==> r.value !in completed
    decreases |sections|
  {
    if sections == [] then None
    else if sections[|sections| - 1].id !in completed then Some(sections[|sections| - 1].id)
    else LastPending(sections[..|sections| - 1], completed)
  }

  /**
   * Walking the plan never changes the completed or failed sections, the
   * configuration, the thesis or the creation time; the current section is
   * the last one not completed, and stays as it was when every section is
   * completed.
   */
  lemma {:induction false} WalkSpec(st: RunState, sections: seq<SectionPlan>, now: string)
    ensures var w := Walk(st, sections, now);
      && w.completedSections == st.completedSections && w.failedSections == st.failedSections
      && w.config == st.config && w.thesis == st.thesis && w.createdAt == st.createdAt
      && w.currentSectionId == (match LastPending(sections, st.completedSections)
                                case Some(id) => id
                                case None => st.currentSectionId)
      && w.updatedAt == (if LastPending(sections, st.completedSections).Some? then now else st.updatedAt)
    decreases |sections|
  {
    if sections != [] {
      WalkSpec(st, sections[..|sections| - 1], now);
    }
  }

  /** Every section after the last pending one is already completed. */
  lemma {:induction false} LastPendingIsLast(sections: seq<SectionPlan>, completed: seq<int>)
    ensures LastPending(sections, completed).None? <==> forall k :: 0 <= k < |sections| ==> sections[k].id in completed
    ensures LastPending(sections, completed).Some? ==>
      exists j :: 0 <= j < |sections| && sections[j].id == LastPending(sections, completed).value &&
        forall k :: j < k < |sections| ==> sections[k].id in completed
    decreases |sections|
  {
    if sections != [] {
      var init := sections[..|sections| - 1];
      LastPendingIsLast(init, completed);
      assert forall k :: 0 <= k < |init| ==> init[k] == sections[k];
    }
  }

  /** Running the plan again gives the same state, apart from the time of the last save. */
  lemma WalkAgain(st: RunState, sections: seq<SectionPlan>, now: string, later: string)
    ensures Walk(Walk(st, sections, now), sections, later) == Walk(st, sections, later)
  {
    WalkSpec(st, sections, now);
    WalkSpec(Walk(st, sections, now), sections, later);
    WalkSpec(st, sections, later);
  }

  /** A freshly created plan, run from a fresh state, makes its last section current. */
  lemma FreshRunReachesLast(config: IV.Config, now: string, later: string)
    requires config.template != []
    ensures Walk(InitialState(config, now), CreatePlan(config, now).sections, later).currentSectionId
      == |config.template| - 1
  {
    var sections := CreatePlan(config, now).sections;
    WalkSpec(InitialState(config, now), sections, later);
    assert sections[|sections| - 1].id == |config.template| - 1;
  }

  /**
   * The first-generation orchestrator. `state` and `plan` stand for the two
   * files in the state directory; they are `None` while the file is absent.
   */
  class Orchestrator {
    var state: Option<RunState>
    var plan: Option<Plan>

    /** The state directory may already hold files from an earlier run; nothing is read or written here. */
    constructor(savedState: Option<RunState>, savedPlan: Option<Plan>)
      ensures state == savedState && plan == savedPlan
    {
      state := savedState;
      plan := savedPlan;
    }

    /**
     * `initialize`: a rejected input raises before anything is saved;
     * otherwise a fresh state and the plan of the validated configuration
     * replace whatever the files held.
     */
    method Initialize(input: seq<(string, Yaml)>, now: string) returns (r: Result<IV.Config, InitError>)
      modifies this
      ensures r.Err? <==> IV.ValidateSpec(input).Err?
      ensures r.Err? ==> r.error == Invalid(IV.ValidateSpec(input).error) && state == old(state) && plan == old(plan)
      ensures r.Ok? ==> r.value == IV.ValidateSpec(input).value
      ensures r.Ok? ==> state == Some(InitialState(r.value, now)) && plan == Some(CreatePlan(r.value, now))
    {
      var config := IV.Validate(input);
      if config.Err? {
        return Err(Invalid(config.error));
      }
      state := Some(InitialState(config.value, now));
      plan := Some(CreatePlan(config.value, now));
      r := Ok(config.value);
    }

    /**
     * `run`: without a state file it raises; otherwise every section of the
     * plan not yet completed becomes the current one in turn, and the state
     * is saved after each. The plan is never changed.
     */
    method Run(now: string) returns (r: Option<RunError>)
      modifies this
      ensures plan == old(plan)
      ensures old(state).None? ==> r == Some(StateNotInitialized) && state == old(state)
      ensures old(state).Some? && old(plan).None? ==> r == Some(PlanMissing) && state == old(state)
      ensures old(state).Some? && old(plan).Some? ==>
        r.None? && state == Some(Walk(old(state).value, old(plan).value.sections, now))
    {
      if state.None? {
        return Some(StateNotInitialized);
      }
      if plan.None? {
        return Some(PlanMissing);
      }
      var st := state.value;
      var sections := plan.value.sections;
      var i := 0;
      while i < |sections|
        invariant 0 <= i <= |sections|
        invariant plan == old(plan)
        invariant state == Some(Walk(st, sections[..i], now))
      {
        assert sections[..i + 1][..i] == sections[..i];
        var current := state.value;
        var section := sections[i];
        if section.id !in current.completedSections {
          state := Some(current.(currentSectionId := section.id, updatedAt := now));
        }
        i := i + 1;
      }
      assert sections[..i] == sections;
      r := None;
    }
  }
}
