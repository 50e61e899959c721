/**
 * ResearchQuestionGenerator: asks the model for a JSON list of research
 * questions, normalises each question's target sections against the paper
 * template, numbers the questions `RQ-01`, `RQ-02`, ..., and repeats the
 * generation until the user approves a set or the attempts run out, when the
 * user enters the questions by hand. The model's replies, the JSON decoder and
 * the user's answers are inputs.
 */
module QuestionGenerator {
  import opened Wrappers
  import opened Text
  import opened Seqs
  import opened Models

  /** A value found in `target_sections`: an integer, a string, or anything else. */
  datatype Target = IntTarget(n: int) | StrTarget(s: string) | OtherTarget

  /**
   * A `target_sections` value: one the `for` loop can walk (a list; a string
   * or an object walks as its characters or keys, each a string target), or
   * one it cannot (a number, a boolean or `null`, a TypeError).
   */
  datatype Targets = TargetItems(items: seq<Target>) | TargetsNotIterable

  /**
   * One entry of `questions`: an object, whose `None` fields are missing keys,
   * or any other value, on which `.get` raises an AttributeError.
   */
  datatype RawQuestion = RawQuestion(text: Option<string>, targetSections: Option<Targets>) | EntryNotObject

  /**
   * The `questions` value: missing (the default `[]`), a sequence of entries
   * (a list; a string is the sequence of its characters, none an object), an
   * object with `keys` keys, or a value without a length (a number, a boolean
   * or `null`, on which `len` raises a TypeError).
   */
  datatype Questions = QuestionsMissing | QuestionItems(items: seq<RawQuestion>) | QuestionsObject(keys: nat) | QuestionsUnsized

  /** The decoded JSON: an object with its `questions` value, or any other value, on which `.get` raises. */
  datatype Reply = Reply(questions: Questions) | ReplyNotObject

  /**
   * What `_parse_json_to_questions` does with a reply: the JSON does not
   * decode (`JSONDecodeError`, which `generate_plan` catches), an error that
   * `generate_plan` does not catch (AttributeError, TypeError), or the questions.
   */
  datatype Parse = NotJson | Uncaught | Parsed(questions: seq<Question>)

  // ---------------------------------------------------------------- the prompt

  /**
   * The target-id bounds `_build_prompt` states for a template of `n` sections:
   * ids `0..early` are contextual, `early+1..late` analytical and `late+1..n-1`
   * synthesis. For at least four sections all three ranges are non-empty and
   * together cover the template; for one to three sections the synthesis range
   * is empty.
   */
  function PromptBounds(n: nat): (b: (int, int))
    ensures n >= 1 ==> 0 <= b.0 <= b.1 <= n - 1
    ensures n >= 4 ==> 0 <= b.0 && b.0 + 1 <= b.1 && b.1 + 1 <= n - 1
    ensures 1 <= n <= 3 ==> b.1 == n - 1
    ensures n == 0 ==> b == (0, -1)
  {
    var early := if n / 3 > 0 then n / 3 else 0;
    var late := if n - 1 < (2 * n) / 3 then n - 1 else (2 * n) / 3;
    (early, late)
  }

  // ---------------------------------------------------------------- extracting the JSON

  /**
   * `re.search(r'(\{.*\})', text, re.DOTALL)`, else the text: the greedy match
   * runs from the first `{` to the last `}`, and exists when that `}` lies
   * after that `{`.
   */
  function ExtractJson(text: string): (r: string)
  {
    var first := IndexOfChar(text, '{');
    var last := LastIndexOfChar(text, '}');
    if 0 <= first < last then text[first..last + 1] else text
  }

  /**
   * The extracted text is the whole reply, or the piece of it at `a` that
   * starts with `{`, ends with `}`, has no `{` before it and no `}` after it.
   */
  lemma ExtractJsonShape(text: string) returns (a: nat)
    ensures var r := ExtractJson(text);
      || r == text
      || (&& a + |r| <= |text| && r == text[a..a + |r|] && |r| >= 2
          && r[0] == '{' && r[|r| - 1] == '}'
          && (forall j :: 0 <= j < a ==> text[j] != '{')
          && (forall j :: a + |r| <= j < |text| ==> text[j] != '}'))
  {
    var first := IndexOfChar(text, '{');
    var last := LastIndexOfChar(text, '}');
    a := 0;
    if 0 <= first < last {
      a := first;
      var r := text[first..last + 1];
      assert r == text[first..first + |r|];
    }
  }

  /** Extracting twice gives what extracting once gives. */
  lemma ExtractJsonIdempotent(text: string)
    ensures ExtractJson(ExtractJson(text)) == ExtractJson(text)
  {
    var first := IndexOfChar(text, '{');
    var last := LastIndexOfChar(text, '}');
    if 0 <= first < last {
      var r := text[first..last + 1];
      assert r[0] == '{' && r[|r| - 1] == '}';
      assert IndexOfChar(r, '{') == 0;
      assert LastIndexOfChar(r, '}') == |r| - 1 by {
        assert r[..|r|] == r;
      }
      assert r[0..|r|] == r;
    }
  }

  // ---------------------------------------------------------------- normalising targets

  /** The first template index from `i` on whose title equals `target`, ignoring case. */
  function FindTitle(template: seq<string>, target: string, i: nat): (r: Option<nat>)
    requires i <= |template|
    ensures r.Some? ==> i <= r.value < |template| && Lower(template[r.value]) == Lower(target)
    decreases |template| - i
  {
    if i == |template| then None
    else if Lower(template[i]) == Lower(target) then Some(i)
    else FindTitle(template, target, i + 1)
  }

  /** `list.index` finds the first equal title, and fails exactly when no title is equal. */
  lemma {:induction false} FindTitleSpec(template: seq<string>, target: string, i: nat)
    requires i <= |template|
    ensures var r := FindTitle(template, target, i);
      && (r.Some? ==> forall j :: i <= j < r.value ==> Lower(template[j]) != Lower(target))
      && (r.None? ==> forall j :: i <= j < |template| ==> Lower(template[j]) != Lower(target))
    decreases |template| - i
  {
    if i < |template| && Lower(template[i]) != Lower(target) {
      FindTitleSpec(template, target, i + 1);
    }
  }

  /**
   * The section id one target contributes, if any: an integer in range, the
   * index of the first title equal to a string, or the value of an unmatched
   * all-digit string. Ids are never negative, and an id outside the template
   * can only come from a digit string.
   */
  function NormalizeTarget(t: Target, template: seq<string>): (r: Option<int>)
    ensures r.Some? ==> r.value >= 0
    ensures r.Some? && r.value >= |template| ==> t.StrTarget? && IsDigits(t.s)
    ensures t.OtherTarget? ==> r.None?
  {
    match t
    case IntTarget(n) => if 0 <= n < |template| then Some(n) else None
    case StrTarget(s) =>
      (match FindTitle(template, s, 0)
       case Some(i) => Some(i)
       case None => if IsDigits(s) then Some(DigitsValue(s) as int) else None)
    case OtherTarget => None
  }

  /** An integer target is kept exactly when it indexes the template. */
  lemma IntTargetKept(n: int, template: seq<string>)
    ensures NormalizeTarget(IntTarget(n), template).Some? <==> 0 <= n < |template|
    ensures NormalizeTarget(IntTarget(n), template).Some? ==> NormalizeTarget(IntTarget(n), template).value == n
  {
  }

  /** A string equal (ignoring case) to a title resolves to the first such title's index. */
  lemma StringTargetResolves(template: seq<string>, s: string, i: nat)
    requires i < |template| && Lower(template[i]) == Lower(s)
    requires forall j :: 0 <= j < i ==> Lower(template[j]) != Lower(s)
    ensures NormalizeTarget(StrTarget(s), template) == Some(i)
  {
    FindTitleSpec(template, s, 0);
  }

  /**
   * An all-digit string that names no title is kept as its numeric value,
   * without a range check: the id may lie past the end of the template.
   */
  lemma DigitStringUnchecked(template: seq<string>, s: string)
    requires IsDigits(s)
    requires forall j :: 0 <= j < |template| ==> Lower(template[j]) != Lower(s)
    ensures NormalizeTarget(StrTarget(s), template) == Some(DigitsValue(s) as int)
  {
    FindTitleSpec(template, s, 0);
  }

  /** The `normalized_targets` list of one question: each target's id, in order. */
  function NormalizedTargets(raw: seq<Target>, template: seq<string>): (ids: seq<int>)
    ensures |ids| <= |raw|
  {
    if raw == [] then []
    else
      var init := NormalizedTargets(raw[..|raw| - 1], template);
      match NormalizeTarget(raw[|raw| - 1], template)
      case Some(id) => init + [id]
      case None => init
  }

  /** An id is normalised exactly when some target of the question yields it. */
  lemma {:induction false} NormalizedTargetsMembers(raw: seq<Target>, template: seq<string>, x: int)
    ensures x in NormalizedTargets(raw, template) <==>
      exists k :: 0 <= k < |raw| && NormalizeTarget(raw[k], template) == Some(x)
  {
    if raw != [] {
      var init := raw[..|raw| - 1];
      NormalizedTargetsMembers(init, template, x);
      if x in NormalizedTargets(init, template) {
        var k :| 0 <= k < |init| && NormalizeTarget(init[k], template) == Some(x);
        assert raw[k] == init[k];
      }
      if exists k :: 0 <= k < |raw| && NormalizeTarget(raw[k], template) == Some(x) {
        var k :| 0 <= k < |raw| && NormalizeTarget(raw[k], template) == Some(x);
        if k < |init| {
          assert init[k] == raw[k];
        }
      }
    }
  }

  /** The inner loop of `_parse_json_to_questions` over one question's targets. */
  method NormalizeTargets(raw: seq<Target>, template: seq<string>) returns (ids: seq<int>)
    ensures ids == NormalizedTargets(raw, template)
  {
    ids := [];
    var i := 0;
    while i < |raw|
      invariant 0 <= i <= |raw|
      invariant ids == NormalizedTargets(raw[..i], template)
    {
      assert raw[..i + 1][..i] == raw[..i];
      var id := NormalizeTarget(raw[i], template);
      if id.Some? {
        ids := ids + [id.value];
      }
      i := i + 1;
    }
    assert raw[..i] == raw;
  }

  // ---------------------------------------------------------------- building the questions

  /** `f'RQ-{i + 1:02d}'`. */
  function QuestionId(i: nat): string
  {
    "RQ-" + ZeroPad(i + 1, 2)
  }

  /** Question ids are `RQ-` and at least two digits that read back as the 1-based position, so they are distinct. */
  lemma QuestionIdShape(i: nat, j: nat)
    ensures StartsWith(QuestionId(i), "RQ-") && |QuestionId(i)| >= 5
    ensures DigitsValue(QuestionId(i)[3..]) == i + 1
    ensures i != j ==> QuestionId(i) != QuestionId(j)
  {
    ZeroPadShape(i + 1, 2);
    ZeroPadShape(j + 1, 2);
    assert QuestionId(i)[3..] == ZeroPad(i + 1, 2);
    assert QuestionId(j)[3..] == ZeroPad(j + 1, 2);
  }

  /** The first question is `RQ-01`. */
  lemma FirstQuestionId()
    ensures QuestionId(0) == "RQ-01"
  {
    assert NatToString(1) == "1";
    assert Repeat('0', 1) == "0" by {
      assert Repeat('0', 0) == "";
    }
  }

  /** An entry the loop can convert: an object whose `target_sections`, if present, can be walked. */
  predicate Convertible(q: RawQuestion)
  {
    q.RawQuestion? && (q.targetSections.None? || q.targetSections.value.TargetItems?)
  }

  /** The targets of a convertible entry, `[]` when the key is missing. */
  function TargetsOf(q: RawQuestion): seq<Target>
    requires Convertible(q)
  {
    if q.targetSections.Some? then q.targetSections.value.items else []
  }

  /** The question built from the `i`-th entry: text default empty, targets deduplicated. */
  function BuildQuestion(i: nat, q: RawQuestion, template: seq<string>): (r: Question)
    requires Convertible(q)
    ensures r.questionId == QuestionId(i)
    ensures forall x :: x in r.targetSections ==> x >= 0
  {
    var ids := NormalizedTargets(TargetsOf(q), template);
    assert forall x :: x in ids ==> x >= 0 by {
      forall x | x in ids ensures x >= 0 {
        NormalizedTargetsMembers(TargetsOf(q), template, x);
      }
    }
    Question(QuestionId(i), if q.text.Some? then q.text.value else "", set x | x in ids)
  }

  /** The questions built from the entries, numbered from `RQ-01`. */
  function QuestionsOf(raw: seq<RawQuestion>, template: seq<string>): (qs: seq<Question>)
    requires forall k :: 0 <= k < |raw| ==> Convertible(raw[k])
    ensures |qs| == |raw|
  {
    seq(|raw|, i requires 0 <= i < |raw| => BuildQuestion(i, raw[i], template))
  }

  /**
   * The entries the loop walks: all of a sequence, cut to the first
   * `expectedCount` when there are more; none for a missing key. An object
   * cannot be sliced and its keys are no objects, so any object but an empty
   * one that needs no slicing raises, as does a value without a length.
   */
  function KeptEntries(q: Questions, expectedCount: int): (r: Option<seq<RawQuestion>>)
    ensures q.QuestionsMissing? ==> r == Some([])
    ensures q.QuestionsUnsized? ==> r.None?
    ensures q.QuestionsObject? ==> (r.Some? <==> q.keys == 0 && expectedCount >= 0)
    ensures q.QuestionItems? ==> r.Some? && |r.value| <= |q.items| && r.value == q.items[..|r.value|]
  {
    match q
    case QuestionsMissing => Some([])
    case QuestionItems(all) => Some(if |all| > expectedCount then TakePy(all, expectedCount) else all)
    case QuestionsObject(n) => if n == 0 && expectedCount >= 0 then Some([]) else None
    case QuestionsUnsized => None
  }

  /**
   * `_parse_json_to_questions` as a value: `NotJson` when the JSON does not
   * decode; `Uncaught` when the decoded value is no object, its `questions`
   * cannot be measured or sliced, or a kept entry cannot be converted;
   * otherwise at most `expectedCount` questions (extras dropped from the end),
   * the `i`-th numbered `QuestionId(i)`.
   */
  function ParseQuestions(text: string, decode: string -> Option<Reply>, expectedCount: int, template: seq<string>): (r: Parse)
    ensures r.NotJson? <==> decode(ExtractJson(text)).None?
    ensures decode(ExtractJson(text)) == Some(ReplyNotObject) ==> r.Uncaught?
    ensures r.Parsed? && expectedCount >= 0 ==> |r.questions| <= expectedCount
    ensures r.Parsed? ==> forall i :: 0 <= i < |r.questions| ==> r.questions[i].questionId == QuestionId(i)
  {
    match decode(ExtractJson(text))
    case None => NotJson
    case Some(reply) =>
      if reply.ReplyNotObject? then Uncaught
      else match KeptEntries(reply.questions, expectedCount)
        case None => Uncaught
        case Some(kept) =>
          if forall k :: 0 <= k < |kept| ==> Convertible(kept[k]) then Parsed(QuestionsOf(kept, template))
          else Uncaught
  }

  /**
   * On a decoded object, the kept entries are the first `expectedCount` of the
   * list: the reply raises exactly when one of them cannot be converted, and
   * otherwise the `i`-th question is built from the `i`-th entry.
   */
  lemma ParseQuestionsKeepsPrefix(text: string, decode: string -> Option<Reply>, expectedCount: nat, template: seq<string>, all: seq<RawQuestion>)
    requires decode(ExtractJson(text)) == Some(Reply(QuestionItems(all)))
    ensures var n := if |all| < expectedCount then |all| else expectedCount;
      var r := ParseQuestions(text, decode, expectedCount, template);
      && (r.Uncaught? <==> exists k :: 0 <= k < n && !Convertible(all[k]))
      && (r.Parsed? ==> |r.questions| == n && forall i :: 0 <= i < n ==> r.questions[i] == BuildQuestion(i, all[i], template))
  {
    var n := if |all| < expectedCount then |all| else expectedCount;
    var kept := KeptEntries(QuestionItems(all), expectedCount).value;
    assert |kept| == n && forall k :: 0 <= k < n ==> kept[k] == all[k];
  }

  /** A missing `questions` key gives no questions; an object reply that is not `{}` raises. */
  lemma ParseQuestionsOddShapes(text: string, decode: string -> Option<Reply>, expectedCount: int, template: seq<string>)
    ensures decode(ExtractJson(text)) == Some(Reply(QuestionsMissing)) ==>
      ParseQuestions(text, decode, expectedCount, template) == Parsed([])
    ensures decode(ExtractJson(text)) == Some(Reply(QuestionsUnsized)) ==>
      ParseQuestions(text, decode, expectedCount, template) == Uncaught
    ensures forall n :: decode(ExtractJson(text)) == Some(Reply(QuestionsObject(n))) && n > 0 ==>
      ParseQuestions(text, decode, expectedCount, template) == Uncaught
  {
  }

  /** `_parse_json_to_questions`: the loop over the kept entries. */
  method ParseJsonToQuestions(text: string, decode: string -> Option<Reply>, expectedCount: int, template: seq<string>)
    returns (r: Parse)
    ensures r == ParseQuestions(text, decode, expectedCount, template)
  {
    var data := decode(ExtractJson(text));
    if data.None? {
      return NotJson;
    }
    if data.value.ReplyNotObject? {
      return Uncaught;
    }
    var raw := KeptEntries(data.value.questions, expectedCount);
    if raw.None? {
      return Uncaught;
    }
    var processed := ConvertQuestions(raw.value, template);
    r := if processed.Some? then Parsed(processed.value) else Uncaught;
  }

  /** The loop of `_parse_json_to_questions` over the kept entries; it stops at the first entry that raises. */
  method ConvertQuestions(raw: seq<RawQuestion>, template: seq<string>) returns (processed: Option<seq<Question>>)
    ensures processed.Some? <==> forall k :: 0 <= k < |raw| ==> Convertible(raw[k])
    ensures processed.Some? ==> processed.value == QuestionsOf(raw, template)
  {
    var done: seq<Question> := [];
    var i := 0;
    while i < |raw|
      invariant 0 <= i <= |raw|
      invariant forall k :: 0 <= k < i ==> Convertible(raw[k])
      invariant |done| == i
      invariant forall k :: 0 <= k < i ==> done[k] == BuildQuestion(k, raw[k], template)
    {
      if !Convertible(raw[i]) {
        return None;
      }
      var question := ConvertQuestion(i, raw[i], template);
      done := done + [question];
      i := i + 1;
    }
    processed := Some(done);
  }

  /** One iteration: normalise the entry's targets and number the question. */
  method ConvertQuestion(i: nat, q: RawQuestion, template: seq<string>) returns (question: Question)
    requires Convertible(q)
    ensures question == BuildQuestion(i, q, template)
  {
    var targets := NormalizeTargets(TargetsOf(q), template);
    question := Question(QuestionId(i), if q.text.Some? then q.text.value else "", set x | x in targets);
  }

  // ---------------------------------------------------------------- the attempt loop

  /** The user's answer to one displayed set: approve, approve an edited set, or regenerate. */
  datatype Decision = Approve | Edit(edited: seq<Question>) | Regenerate

  /**
   * Everything from outside a `generate_plan` call: the model's reply and the
   * user's answer at each attempt, the JSON decoder, and the questions the user
   * enters by hand as (text, section ids) pairs.
   */
  datatype Session = Session(
    reply: nat -> string,
    decode: string -> Option<Reply>,
    decide: nat -> Decision,
    manual: seq<(string, seq<int>)>)

  /** What `generate_plan` ends with: a plan, or the uncaught error of the reply of attempt `attempt`. */
  datatype PlanOutcome = Planned(plan: ResearchPlan) | Raised(attempt: nat)

  /** Attempt `a` approves: its reply parses and the user does not ask to regenerate. */
  predicate Approved(s: Session, a: nat, numQuestions: int, sections: seq<string>)
  {
    ParseQuestions(s.reply(a), s.decode, numQuestions, sections).Parsed? && !s.decide(a).Regenerate?
  }

  /** Attempt `a` raises an error the loop does not catch. */
  predicate Raises(s: Session, a: nat, numQuestions: int, sections: seq<string>)
  {
    ParseQuestions(s.reply(a), s.decode, numQuestions, sections).Uncaught?
  }

  /** Attempt `a` ends the loop: it approves, or it raises. */
  predicate Ends(s: Session, a: nat, numQuestions: int, sections: seq<string>)
  {
    Approved(s, a, numQuestions, sections) || Raises(s, a, numQuestions, sections)
  }

  /** The questions an approving attempt settles on: the parsed ones, or the user's edit of them. */
  function ApprovedQuestions(s: Session, a: nat, numQuestions: int, sections: seq<string>): seq<Question>
    requires Approved(s, a, numQuestions, sections)
  {
    match s.decide(a)
    case Edit(edited) => edited
    case _ => ParseQuestions(s.reply(a), s.decode, numQuestions, sections).questions
  }

  /** Which of the attempts `0..maxRetries-1` would end the loop. */
  function Endings(s: Session, maxRetries: int, numQuestions: int, sections: seq<string>): (bs: seq<bool>)
    ensures |bs| == if maxRetries > 0 then maxRetries else 0
  {
    seq(if maxRetries > 0 then maxRetries else 0, a requires 0 <= a => Ends(s, a, numQuestions, sections))
  }

  /** The first attempt below `maxRetries` that ends the loop. */
  function FirstEnd(s: Session, maxRetries: int, numQuestions: int, sections: seq<string>): (r: Option<nat>)
    ensures r.Some? ==> r.value < maxRetries && Ends(s, r.value, numQuestions, sections)
  {
    FirstTrue(Endings(s, maxRetries, numQuestions, sections), 0)
  }

  /**
   * The loop stops at the first attempt that approves or raises; every earlier
   * attempt had undecodable JSON or was sent back; it runs out exactly when no
   * attempt below `maxRetries` approves or raises.
   */
  lemma FirstEndSpec(s: Session, maxRetries: int, numQuestions: int, sections: seq<string>)
    ensures var r := FirstEnd(s, maxRetries, numQuestions, sections);
      && (r.Some? ==> forall b :: 0 <= b < r.value ==> !Ends(s, b, numQuestions, sections))
      && (r.None? ==> forall b :: 0 <= b < maxRetries ==> !Ends(s, b, numQuestions, sections))
  {
    var bs := Endings(s, maxRetries, numQuestions, sections);
    FirstTrueSpec(bs, 0);
    forall b | 0 <= b < |bs|
      ensures bs[b] == Ends(s, b, numQuestions, sections)
    {
    }
  }

  /** Attempt `a` of the loop: it ends the loop iff it approves or raises, and is then the first to. */
  lemma EndingsStep(s: Session, maxRetries: int, numQuestions: int, sections: seq<string>, a: nat)
    requires a < maxRetries
    ensures var bs := Endings(s, maxRetries, numQuestions, sections);
      && bs[a] == Ends(s, a, numQuestions, sections)
      && FirstTrue(bs, a) == if bs[a] then Some(a) else FirstTrue(bs, a + 1)
  {
  }

  /** `_manual_entry`: the entered questions, numbered from `RQ-01`. */
  function ManualQuestions(entries: seq<(string, seq<int>)>): (qs: seq<Question>)
    ensures |qs| == |entries|
    ensures forall i :: 0 <= i < |qs| ==> qs[i].questionId == QuestionId(i) && qs[i].text == entries[i].0
  {
    seq(|entries|, i requires 0 <= i < |entries| => Question(QuestionId(i), entries[i].0, set x | x in entries[i].1))
  }

  /**
   * `generate_plan`: at most `maxRetries` attempts, stopping at the first
   * approval or at the first reply that raises an error the loop does not
   * catch, which escapes; when the attempts run out, the manually entered
   * questions. The plan has no sources yet.
   */
  method GeneratePlan(topic: string, sections: seq<string>, numQuestions: int, maxRetries: int, s: Session, completedAt: string)
    returns (outcome: PlanOutcome, attempts: nat)
    ensures maxRetries >= 0 ==> attempts <= maxRetries
    ensures outcome.Planned? ==> outcome.plan.topic == topic && outcome.plan.totalSources == 0 && outcome.plan.completedAt == completedAt
    ensures match FirstEnd(s, maxRetries, numQuestions, sections)
      case Some(a) => attempts == a + 1 && (
        if Raises(s, a, numQuestions, sections) then outcome == Raised(a)
        else outcome.Planned? && outcome.plan.questions == ApprovedQuestions(s, a, numQuestions, sections))
      case None => (attempts == (if maxRetries > 0 then maxRetries else 0)
        && outcome.Planned? && outcome.plan.questions == ManualQuestions(s.manual))
  {
    attempts := 0;
    var finalQuestions: seq<Question> := [];
    var approved := false;
    ghost var bs := Endings(s, maxRetries, numQuestions, sections);
    while !approved && attempts < maxRetries
      invariant attempts <= |bs|
      invariant !approved ==> FirstTrue(bs, 0) == FirstTrue(bs, attempts)
      invariant approved ==> attempts >= 1 && FirstTrue(bs, 0) == Some(attempts - 1)
      invariant approved ==> !Raises(s, attempts - 1, numQuestions, sections)
      invariant approved ==> finalQuestions == ApprovedQuestions(s, attempts - 1, numQuestions, sections)
      decreases maxRetries - attempts, if approved then 0 else 1
    {
      var a := attempts;
      attempts := attempts + 1;
      EndingsStep(s, maxRetries, numQuestions, sections, a);
      var parsed := ParseJsonToQuestions(s.reply(a), s.decode, numQuestions, sections);
      if parsed.NotJson? {
        continue;
      }
      if parsed.Uncaught? {
        return Raised(a), attempts;
      }
      finalQuestions := parsed.questions;
      match s.decide(a)
      case Approve =>
        approved := true;
      case Edit(edited) =>
        finalQuestions := edited;
        approved := true;
      case Regenerate =>
    }
    if !approved {
      finalQuestions := ManualQuestions(s.manual);
    }
    outcome := Planned(ResearchPlan(topic, finalQuestions, 0, completedAt));
  }
}
