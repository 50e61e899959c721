/**
 * StatusMachine: the per-section status table of `src/core/state_manager.py`.
 * Each section is PENDING, IN_PROGRESS, COMPLETED or FAILED; the table is an
 * insertion-ordered dict, so "the next pending section" is the first pending
 * one in the order the sections were first recorded.
 */
module StatusMachine {
  import opened Wrappers
  import opened OrderedMaps

  datatype SectionStatus = Pending | InProgress | Completed | Failed

  /** The enum's string values, as stored in the dict. */
  function StatusValue(s: SectionStatus): string
  {
    match s
    case Pending => "pending"
    case InProgress => "in_progress"
    case Completed => "completed"
    case Failed => "failed"
  }

  /** `SectionStatus(value)`: the lookup by value; any other string is a ValueError. */
  function StatusOf(v: string): (r: Option<SectionStatus>)
    ensures forall s :: r == Some(s) <==> StatusValue(s) == v
  {
    if v == "pending" then Some(Pending)
    else if v == "in_progress" then Some(InProgress)
    else if v == "completed" then Some(Completed)
    else if v == "failed" then Some(Failed)
    else None
  }

  type Table = seq<(string, SectionStatus)>

  // ---------------------------------------------------------------- initialize_sections

  /** The table after `initialize_sections`: each name not yet present is added as PENDING. */
  function InitAll(m: Table, names: seq<string>): Table
    decreases |names|
  {
    if names == [] then m
    else
      var n := |names| - 1;
      var before := InitAll(m, names[..n]);
      if names[n] in Keys(before) then before else Put(before, names[n], Pending)
  }

  /**
   * Initialising keeps every recorded section's status, records every new
   * name as PENDING, adds nothing else, and leaves the existing entries in
   * place at the front.
   */
  lemma {:induction false} InitAllSpec(m: Table, names: seq<string>, k: string)
    ensures Get(InitAll(m, names), k) == if k in Keys(m) then Get(m, k) else if k in names then Some(Pending) else None
    ensures |InitAll(m, names)| >= |m| && InitAll(m, names)[..|m|] == m
    decreases |names|
  {
    if names != [] {
      var n := |names| - 1;
      var before := InitAll(m, names[..n]);
      InitAllSpec(m, names[..n], k);
      InitAllSpec(m, names[..n], names[n]);
      assert names == names[..n] + [names[n]];
      if names[n] !in Keys(before) {
        PutAbsent(before, names[n], Pending);
        GetSnoc(before, names[n], Pending, k);
        assert (before + [(names[n], Pending)])[..|m|] == before[..|m|];
      }
    }
  }

  /** Initialising keeps each section recorded once. */
  lemma {:induction false} InitAllDistinct(m: Table, names: seq<string>)
    requires DistinctKeys(m)
    ensures DistinctKeys(InitAll(m, names))
    decreases |names|
  {
    if names != [] {
      var n := |names| - 1;
      InitAllDistinct(m, names[..n]);
      PutDistinct(InitAll(m, names[..n]), names[n], Pending);
    }
  }

  // ---------------------------------------------------------------- lookups

  /** `get_section_status`: an unrecorded section is PENDING. */
  function StatusIn(m: Table, name: string): (s: SectionStatus)
    ensures name !in Keys(m) ==> s == Pending
    ensures name in Keys(m) ==> Some(s) == Get(m, name)
  {
    match Get(m, name)
    case Some(s) => s
    case None => Pending
  }

  /** `_get_next_pending`: the first PENDING section in insertion order, if any. */
  function FirstPending(m: Table): Option<string>
    decreases |m|
  {
    if m == [] then None
    else if m[0].1 == Pending then Some(m[0].0)
    else FirstPending(m[1..])
  }

  /** The next pending section is pending and no earlier one is; none means nothing is pending. */
  lemma {:induction false} FirstPendingSpec(m: Table)
    ensures FirstPending(m).None? <==> forall i :: 0 <= i < |m| ==> m[i].1 != Pending
    ensures FirstPending(m).Some? ==> exists i :: 0 <= i < |m| && m[i] == (FirstPending(m).value, Pending)
                                                   && forall j :: 0 <= j < i ==> m[j].1 != Pending
    decreases |m|
  {
    if m != [] && m[0].1 != Pending {
      FirstPendingSpec(m[1..]);
      if FirstPending(m[1..]).Some? {
        var i :| 0 <= i < |m| - 1 && m[1..][i] == (FirstPending(m).value, Pending)
                 && forall j :: 0 <= j < i ==> m[1..][j].1 != Pending;
        assert m[i + 1] == (FirstPending(m).value, Pending);
        forall j | 0 <= j < i + 1 ensures m[j].1 != Pending {
          if j > 0 {
            assert m[j] == m[1..][j - 1];
          }
        }
      } else {
        forall i | 0 <= i < |m| ensures m[i].1 != Pending {
          if i > 0 {
            assert m[i] == m[1..][i - 1];
          }
        }
      }
    } else if m != [] {
      assert m[0] == (FirstPending(m).value, Pending);
    }
  }

  // ---------------------------------------------------------------- progress

  /** The number of sections with status `s`. */
  function CountOf(m: Table, s: SectionStatus): (n: nat)
    ensures n <= |m|
    decreases |m|
  {
    if m == [] then 0 else (if m[0].1 == s then 1 else 0) + CountOf(m[1..], s)
  }

  /** Every section has exactly one status. */
  lemma {:induction false} CountsPartition(m: Table)
    ensures CountOf(m, Pending) + CountOf(m, InProgress) + CountOf(m, Completed) + CountOf(m, Failed) == |m|
    decreases |m|
  {
    if m != [] {
      CountsPartition(m[1..]);
    }
  }

  /** What `get_progress` returns; the percentage is a real number. */
  datatype Progress = Progress(totalSections: nat, completed: nat, failed: nat, remaining: int,
                               progressPercentage: real, currentSection: Option<string>)

  function ProgressOf(m: Table, current: Option<string>): Progress
  {
    var total := |m|;
    var completed := CountOf(m, Completed);
    var failed := CountOf(m, Failed);
    Progress(total, completed, failed, total - completed - failed,
             if total > 0 then (completed as real) / (total as real) * 100.0 else 0.0, current)
  }

  /** `is_complete`: every recorded status is COMPLETED (vacuously so for none). */
  predicate AllCompleted(m: Table)
  {
    forall i :: 0 <= i < |m| ==> m[i].1 == Completed
  }

  /** All sections are completed exactly when the completed count is the total. */
  lemma {:induction false} AllCompletedCount(m: Table)
    ensures AllCompleted(m) <==> CountOf(m, Completed) == |m|
    decreases |m|
  {
    if m != [] {
      AllCompletedCount(m[1..]);
      if AllCompleted(m) {
        assert AllCompleted(m[1..]) by {
          forall i | 0 <= i < |m| - 1 ensures m[1..][i].1 == Completed {
            assert m[1..][i] == m[i + 1];
          }
        }
      }
      if CountOf(m, Completed) == |m| {
        assert m[0].1 == Completed && CountOf(m[1..], Completed) == |m| - 1;
        forall i | 0 <= i < |m| ensures m[i].1 == Completed {
          if i > 0 {
            assert m[i] == m[1..][i - 1];
          }
        }
      }
    }
  }

  /**
   * The remaining count is the pending and in-progress sections, so it is
   * never negative; the percentage is 0 without sections, lies between 0 and
   * 100, and is 100 exactly when there are sections and all are completed.
   */
  lemma ProgressSpec(m: Table, current: Option<string>)
    ensures var p := ProgressOf(m, current);
      && p.totalSections == |m|
      && p.remaining == CountOf(m, Pending) + CountOf(m, InProgress)
      && p.remaining >= 0
      && (m == [] ==> p.progressPercentage == 0.0)
      && 0.0 <= p.progressPercentage <= 100.0
      && (p.progressPercentage == 100.0 <==> m != [] && AllCompleted(m))
      && p.currentSection == current
  {
    CountsPartition(m);
    AllCompletedCount(m);
    if m != [] {
      PercentBounds(CountOf(m, Completed), |m|);
    }
  }

  /** A share of a positive total, in percent, lies in [0, 100] and is 100 only for the whole. */
  lemma PercentBounds(c: nat, t: nat)
    requires 0 < t && c <= t
    ensures 0.0 <= (c as real) / (t as real) * 100.0 <= 100.0
    ensures (c as real) / (t as real) * 100.0 == 100.0 <==> c == t
  {
    ShareBounds(c as real, t as real);
  }

  /** A share `c / t` of a positive total lies in [0, 1] and is 1 only for the whole. */
  lemma ShareBounds(c: real, t: real)
    requires 0.0 < t && 0.0 <= c <= t
    ensures 0.0 <= c / t <= 1.0
    ensures c / t == 1.0 <==> c == t
  {
    var f := c / t;
    assert f * t == c;
  }

  // ---------------------------------------------------------------- the object

  /** `StateManager`: the status table and the metadata, updated in place. */
  class StateManager {
    var projectName: string
    var sectionStatus: Table
    var createdAt: Option<string>
    var lastUpdated: Option<string>
    var currentSection: Option<string>

    ghost predicate Valid()
      reads this
    {
      DistinctKeys(sectionStatus)
    }

    /** A fresh manager with no state file: no sections, created `now`. */
    constructor(projectName: string, now: string)
      ensures Valid()
      ensures this.projectName == projectName && sectionStatus == []
      ensures createdAt == Some(now) && lastUpdated == None && currentSection == None
    {
      this.projectName := projectName;
      sectionStatus := [];
      createdAt := Some(now);
      lastUpdated := None;
      currentSection := None;
    }

    /** `initialize_sections`. */
    method InitializeSections(names: seq<string>)
      requires Valid()
      modifies this
      ensures Valid()
      ensures sectionStatus == InitAll(old(sectionStatus), names)
      ensures projectName == old(projectName) && createdAt == old(createdAt)
      ensures lastUpdated == old(lastUpdated) && currentSection == old(currentSection)
    {
      var table := sectionStatus;
      for i := 0 to |names|
        invariant table == InitAll(sectionStatus, names[..i])
      {
        assert names[..i + 1][..i] == names[..i];
        if names[i] !in Keys(table) {
          table := Put(table, names[i], Pending);
        }
      }
      assert names[..|names|] == names;
      InitAllDistinct(sectionStatus, names);
      sectionStatus := table;
    }

    /** `get_section_status`. */
    function GetSectionStatus(name: string): SectionStatus
      reads this
    {
      StatusIn(sectionStatus, name)
    }

    /** `_get_next_pending`: the loop over the dict's items. */
    method NextPending() returns (r: Option<string>)
      ensures r == FirstPending(sectionStatus)
    {
      var i := 0;
      while i < |sectionStatus|
        invariant 0 <= i <= |sectionStatus|
        invariant FirstPending(sectionStatus) == FirstPending(sectionStatus[i..])
      {
        if sectionStatus[i].1 == Pending {
          return Some(sectionStatus[i].0);
        }
        assert sectionStatus[i..][1..] == sectionStatus[i + 1..];
        i := i + 1;
      }
      return None;
    }

    /**
     * `set_section_status`: records the status and the update time; IN_PROGRESS
     * makes the section current, COMPLETED moves on to the next pending section.
     */
    method SetSectionStatus(name: string, status: SectionStatus, now: string)
      requires Valid()
      modifies this
      ensures Valid()
      ensures sectionStatus == Put(old(sectionStatus), name, status)
      ensures lastUpdated == Some(now)
      ensures status == InProgress ==> currentSection == Some(name)
      ensures status == Completed ==> currentSection == FirstPending(sectionStatus)
      ensures status == Pending || status == Failed ==> currentSection == old(currentSection)
      ensures projectName == old(projectName) && createdAt == old(createdAt)
    {
      PutDistinct(sectionStatus, name, status);
      sectionStatus := Put(sectionStatus, name, status);
      lastUpdated := Some(now);
      if status == InProgress {
        currentSection := Some(name);
      } else if status == Completed {
        currentSection := NextPending();
      }
    }

    /** `get_progress`. */
    function GetProgress(): Progress
      reads this
    {
      ProgressOf(sectionStatus, currentSection)
    }

    /** `is_complete`. */
    predicate IsComplete()
      reads this
    {
      AllCompleted(sectionStatus)
    }

    /** `reset`: no sections, no current section, updated `now`. */
    method Reset(now: string)
      modifies this
      ensures Valid()
      ensures sectionStatus == [] && currentSection == None && lastUpdated == Some(now)
      ensures projectName == old(projectName) && createdAt == old(createdAt)
    {
      sectionStatus := [];
      currentSection := None;
      lastUpdated := Some(now);
    }
  }

  /**
   * Setting a status changes that section's entry only: the named section
   * reads back the new status and every other keeps its own.
   */
  lemma SetStatusSpec(m: Table, name: string, status: SectionStatus, other: string)
    ensures StatusIn(Put(m, name, status), name) == status
    ensures other != name ==> StatusIn(Put(m, name, status), other) == StatusIn(m, other)
  {
    GetPut(m, name, status, name);
    GetPut(m, name, status, other);
  }

  /** After completing the only unfinished section, nothing is current and the table is complete. */
  lemma CompleteLast(m: Table, name: string)
    requires DistinctKeys(m)
    requires forall i :: 0 <= i < |m| && m[i].0 != name ==> m[i].1 == Completed
    ensures AllCompleted(Put(m, name, Completed))
    ensures FirstPending(Put(m, name, Completed)) == None
  {
    var r := Put(m, name, Completed);
    forall i | 0 <= i < |r| ensures r[i].1 == Completed {
      assert r[i].0 in Keys(r);
      PutEntry(m, name, Completed, i);
    }
    FirstPendingSpec(r);
  }

  /** An entry of the updated table is the new pair or an entry of the old one. */
  lemma {:induction false} PutEntry(m: Table, k: string, v: SectionStatus, i: nat)
    requires DistinctKeys(m)
    requires i < |Put(m, k, v)|
    ensures Put(m, k, v)[i] == (k, v) || (Put(m, k, v)[i] in m && Put(m, k, v)[i].0 != k)
    decreases |m|
  {
    if m != [] && m[0].0 != k && i > 0 {
      PutEntry(m[1..], k, v, i - 1);
    }
  }
}
