/**
 * InputValidator: the checks `agents/input_validator.py` applies to the raw
 * project input before anything else runs. The input is a decoded JSON/YAML
 * mapping; every check either raises or yields the cleaned value, and the
 * constraints and style start from the defaults of `config/defaults.py`.
 */
module InputValidator {
  import opened Wrappers
  import opened Text
  import opened OrderedMaps
  import opened ConfigLoader

  /** The shortest topic accepted, after stripping. */
  const MinTopicLength := 10
  /** The largest template accepted. */
  const MaxSections := 40
  /** The largest template the error message claims is accepted. */
  const StatedMaxSections := 20

  const DefaultConstraints: seq<(string, Yaml)> :=
    [("max_section_word_count", YInt(1500)),
     ("min_citations_per_section", YInt(3)),
     ("max_time_per_section_minutes", YInt(20))]

  const ValidTones: seq<string> := ["professional", "formal", "conversational"]
  const ValidCitationFormats: seq<string> := ["APA", "Harvard", "MLA", "Chicago"]
  const ValidComplexityLevels: seq<string> := ["undergraduate", "graduate", "expert"]

  /** The `ValidationError`s, and `TypeError` for the Python errors a malformed value raises instead. */
  datatype Error =
    | MissingField(field: string)
    | TopicNotString | TopicEmpty | TopicTooShort
    | TemplateNotList | TemplateEmpty | TemplateTooLong(statedMaximum: nat)
    | SectionNotString(index: nat) | SectionEmpty(index: nat)
    | UnknownConstraint(key: string) | ConstraintNotInteger(key: string) | ConstraintNotPositive(key: string)
    | InvalidTone(tone: Yaml) | InvalidCitationFormat(format: Yaml) | InvalidComplexity(complexity: Yaml)
    | TypeError

  datatype Style = Style(tone: string, citationFormat: string, complexity: string, additionalInstructions: Yaml)

  const DefaultStyle := Style("professional", "APA", "undergraduate", YNull)

  /** The validated configuration: exactly the four keys `validate` returns. */
  datatype Config = Config(topic: string, template: seq<string>, constraints: seq<(string, Yaml)>, style: Style)

  // ---------------------------------------------------------------- required fields and topic

  /** `_validate_required_fields`: `topic` is checked before `template`. */
  function RequiredFields(data: seq<(string, Yaml)>): (r: Option<Error>)
    ensures r.None? <==> "topic" in Keys(data) && "template" in Keys(data)
    ensures r == Some(MissingField("topic")) <==> "topic" !in Keys(data)
  {
    if "topic" !in Keys(data) then Some(MissingField("topic"))
    else if "template" !in Keys(data) then Some(MissingField("template"))
    else None
  }

  /** `_validate_topic`. */
  function TopicOf(v: Yaml): Result<string, Error>
  {
    if !v.YStr? then Err(TopicNotString)
    else if Strip(v.s) == [] then Err(TopicEmpty)
    else if |Strip(v.s)| < MinTopicLength then Err(TopicTooShort)
    else Ok(Strip(v.s))
  }

  /**
   * A topic is accepted exactly when it is a string with at least ten
   * characters besides surrounding whitespace.
   */
  lemma TopicAccepted(v: Yaml)
    ensures TopicOf(v).Ok? <==> v.YStr? && |Strip(v.s)| >= MinTopicLength
  {
  }

  /** What comes back is stripped text, no longer than the input. */
  lemma TopicStripped(v: Yaml)
    requires TopicOf(v).Ok?
    ensures Strip(TopicOf(v).value) == TopicOf(v).value && |TopicOf(v).value| <= |v.s|
  {
    StripShape(v.s);
    StripIdempotent(v.s);
  }

  /** An all-whitespace topic is reported as empty rather than short. */
  lemma TopicBlank(v: Yaml)
    requires v.YStr?
    ensures TopicOf(v) == Err(TopicEmpty) <==> forall i :: 0 <= i < |v.s| ==> IsSpace(v.s[i])
  {
    StripShape(v.s);
  }

  // ---------------------------------------------------------------- template

  /** One template entry: a string that is not blank, stripped. */
  function SectionValue(v: Yaml, i: nat): Result<string, Error>
  {
    if !v.YStr? then Err(SectionNotString(i))
    else if Strip(v.s) == [] then Err(SectionEmpty(i))
    else Ok(Strip(v.s))
  }

  /**
   * The entry loop of `_validate_template` over `items`, with the check of
   * one entry as a parameter: it stops at the first entry `check` rejects.
   */
  function CheckEach(items: seq<Yaml>, check: (Yaml, nat) -> Result<string, Error>): Result<seq<string>, Error>
    decreases |items|
  {
    if items == [] then Ok([])
    else
      var init := CheckEach(items[..|items| - 1], check);
      var last := check(items[|items| - 1], |items| - 1);
      if init.Err? then init
      else if last.Err? then Err(last.error)
      else Ok(init.value + [last.value])
  }

  /** The entry loop of `_validate_template`. */
  function CheckSections(items: seq<Yaml>): Result<seq<string>, Error>
  {
    CheckEach(items, SectionValue)
  }

  /** The entries pass exactly when each one does, and then each comes back checked, in order. */
  lemma {:induction false} CheckEachSpec(items: seq<Yaml>, check: (Yaml, nat) -> Result<string, Error>)
    ensures CheckEach(items, check).Ok? <==> forall k :: 0 <= k < |items| ==> check(items[k], k).Ok?
    ensures CheckEach(items, check).Ok? ==>
      |CheckEach(items, check).value| == |items| &&
      forall k :: 0 <= k < |items| ==> CheckEach(items, check).value[k] == check(items[k], k).value
    decreases |items|
  {
    if items != [] {
      var init := items[..|items| - 1];
      CheckEachSpec(init, check);
      assert forall k :: 0 <= k < |init| ==> init[k] == items[k];
    }
  }

  /** A failure names the first bad entry: every earlier entry passes. */
  lemma {:induction false} CheckEachFirstError(items: seq<Yaml>, check: (Yaml, nat) -> Result<string, Error>) returns (k: nat)
    requires CheckEach(items, check).Err?
    ensures k < |items| && check(items[k], k).Err?
    ensures CheckEach(items, check).error == check(items[k], k).error
    ensures forall j :: 0 <= j < k ==> check(items[j], j).Ok?
    decreases |items|
  {
    var init := items[..|items| - 1];
    assert forall j :: 0 <= j < |init| ==> init[j] == items[j];
    if CheckEach(init, check).Err? {
      k := CheckEachFirstError(init, check);
    } else {
      CheckEachSpec(init, check);
      k := |items| - 1;
    }
  }

  /** `_validate_template`: the error message says 20 sections, but 40 are accepted. */
  function TemplateOf(v: Yaml): Result<seq<string>, Error>
  {
    if !v.YList? then Err(TemplateNotList)
    else if |v.items| == 0 then Err(TemplateEmpty)
    else if |v.items| > MaxSections then Err(TemplateTooLong(StatedMaxSections))
    else CheckSections(v.items)
  }

  /** An accepted template has 1 to 40 non-blank stripped names, one per entry, in order. */
  lemma TemplateSpec(v: Yaml)
    ensures TemplateOf(v).Ok? <==>
      v.YList? && 1 <= |v.items| <= MaxSections && forall k :: 0 <= k < |v.items| ==> SectionValue(v.items[k], k).Ok?
    ensures TemplateOf(v).Ok? ==>
      |TemplateOf(v).value| == |v.items| &&
      forall k :: 0 <= k < |v.items| ==>
        v.items[k].YStr? && TemplateOf(v).value[k] == Strip(v.items[k].s) && TemplateOf(v).value[k] != []
  {
    if v.YList? && 1 <= |v.items| <= MaxSections {
      CheckEachSpec(v.items, SectionValue);
    }
  }

  /** The size and non-blank names of an accepted template, without the stripping. */
  lemma TemplateShape(v: Yaml)
    requires TemplateOf(v).Ok?
    ensures 1 <= |TemplateOf(v).value| <= MaxSections
    ensures forall k :: 0 <= k < |TemplateOf(v).value| ==> TemplateOf(v).value[k] != []
  {
    TemplateSpec(v);
  }

  /** The message and the check disagree: a template of 21 to 40 good entries is accepted. */
  lemma TemplateAboveStatedMaximum(v: Yaml)
    requires v.YList? && StatedMaxSections < |v.items| <= MaxSections
    requires forall k :: 0 <= k < |v.items| ==> SectionValue(v.items[k], k).Ok?
    ensures TemplateOf(v).Ok? && |TemplateOf(v).value| > StatedMaxSections
  {
    TemplateSpec(v);
  }

  /** Once a prefix fails, the whole loop fails with the same error. */
  lemma {:induction false} CheckEachStops(items: seq<Yaml>, n: nat, check: (Yaml, nat) -> Result<string, Error>)
    requires n <= |items| && CheckEach(items[..n], check).Err?
    ensures CheckEach(items, check) == CheckEach(items[..n], check)
    decreases |items|
  {
    if n < |items| {
      var init := items[..|items| - 1];
      assert init[..n] == items[..n];
      CheckEachStops(init, n, check);
    } else {
      assert items[..n] == items;
    }
  }

  /** `_validate_template`: the type and size checks, then the loop that appends each stripped entry. */
  method ValidateTemplate(template: Yaml) returns (r: Result<seq<string>, Error>)
    ensures r == TemplateOf(template)
  {
    if !template.YList? {
      return Err(TemplateNotList);
    }
    var items := template.items;
    if |items| == 0 {
      return Err(TemplateEmpty);
    }
    if |items| > MaxSections {
      return Err(TemplateTooLong(StatedMaxSections));
    }
    var validated: seq<string> := [];
    var i := 0;
    while i < |items|
      invariant 0 <= i <= |items|
      invariant CheckEach(items[..i], SectionValue) == Ok(validated)
    {
      assert items[..i + 1][..i] == items[..i];
      var section := SectionValue(items[i], i);
      if section.Err? {
        CheckEachStops(items, i + 1, SectionValue);
        return Err(section.error);
      }
      validated := validated + [section.value];
      i := i + 1;
    }
    assert items[..i] == items;
    r := Ok(validated);
  }

  // ---------------------------------------------------------------- constraints

  /** `isinstance(value, int)`, which also holds for a bool. */
  predicate IsInt(v: Yaml) { v.YInt? || v.YBool? }

  function IntValue(v: Yaml): int
    requires IsInt(v)
  {
    if v.YInt? then v.i else if v.b then 1 else 0
  }

  /** A key `DEFAULT_CONSTRAINTS` has. */
  predicate IsConstraintKey(key: string) { key in Keys(DefaultConstraints) }

  /** One turn of the loop of `_validate_constraints`. */
  function ConstraintStep(result: seq<(string, Yaml)>, key: string, value: Yaml): Result<seq<(string, Yaml)>, Error>
  {
    if !IsConstraintKey(key) then Err(UnknownConstraint(key))
    else if !IsInt(value) then Err(ConstraintNotInteger(key))
    else if IntValue(value) <= 0 then Err(ConstraintNotPositive(key))
    else Ok(Put(result, key, value))
  }

  /** An entry `_validate_constraints` accepts. */
  predicate GoodConstraint(e: (string, Yaml))
  {
    IsConstraintKey(e.0) && IsInt(e.1) && IntValue(e.1) > 0
  }

  /** The loop of `_validate_constraints` over `entries`, from the defaults. */
  function ConstraintsFrom(entries: seq<(string, Yaml)>): Result<seq<(string, Yaml)>, Error>
    decreases |entries|
  {
    if entries == [] then Ok(DefaultConstraints)
    else
      var init := ConstraintsFrom(entries[..|entries| - 1]);
      var last := entries[|entries| - 1];
      if init.Err? then init else ConstraintStep(init.value, last.0, last.1)
  }

  /** `_validate_constraints`: a value without `.items()` raises. */
  function ConstraintsOf(c: Yaml): Result<seq<(string, Yaml)>, Error>
  {
    if c.YDict? then ConstraintsFrom(c.entries) else Err(TypeError)
  }

  /** The constraints pass exactly when every entry names a default key with a positive integer. */
  lemma {:induction false} ConstraintsAccepted(entries: seq<(string, Yaml)>)
    ensures ConstraintsFrom(entries).Ok? <==> forall k :: 0 <= k < |entries| ==> GoodConstraint(entries[k])
    decreases |entries|
  {
    if entries != [] {
      var init, last := entries[..|entries| - 1], entries[|entries| - 1];
      ConstraintsAccepted(init);
      var r := ConstraintsFrom(init);
      assert ConstraintsFrom(entries) == if r.Err? then r else ConstraintStep(r.value, last.0, last.1);
      if r.Ok? {
        StepAccepts(r.value, last.0, last.1);
      }
      if ConstraintsFrom(entries).Ok? {
        assert forall k :: 0 <= k < |init| ==> GoodConstraint(init[k]);
        assert entries == init + [last];
        assert GoodConstraint(last);
      } else if r.Err? {
        var k :| 0 <= k < |init| && !GoodConstraint(init[k]);
        assert init[k] == entries[k];
      }
    }
  }

  /** One turn succeeds exactly on an entry `_validate_constraints` accepts. */
  lemma StepAccepts(result: seq<(string, Yaml)>, key: string, value: Yaml)
    ensures ConstraintStep(result, key, value).Ok? <==> GoodConstraint((key, value))
  {
  }

  /** A successful result keeps the default keys, in their order. */
  lemma {:induction false} ConstraintsKeys(entries: seq<(string, Yaml)>)
    requires ConstraintsFrom(entries).Ok?
    ensures Keys(ConstraintsFrom(entries).value) == Keys(DefaultConstraints)
    decreases |entries|
  {
    if entries != [] {
      var init, last := entries[..|entries| - 1], entries[|entries| - 1];
      assert entries == init + [last];
      ConstraintsSnoc(init, last);
      ConstraintsKeys(init);
      StepAccepts(ConstraintsFrom(init).value, last.0, last.1);
      PutKeys(ConstraintsFrom(init).value, last.0, last.1);
    }
  }

  /** A successful loop is a successful loop over all but the last entry, then one assignment. */
  lemma ConstraintsSnoc(init: seq<(string, Yaml)>, last: (string, Yaml))
    requires ConstraintsFrom(init + [last]).Ok?
    ensures ConstraintsFrom(init).Ok?
    ensures ConstraintsFrom(init + [last]).value == Put(ConstraintsFrom(init).value, last.0, last.1)
  {
    var entries := init + [last];
    assert entries[..|entries| - 1] == init;
    var r := ConstraintsFrom(init);
    if r.Ok? {
      StepPuts(r.value, last.0, last.1);
    }
  }

  /** An accepted entry is assigned into the result. */
  lemma StepPuts(result: seq<(string, Yaml)>, key: string, value: Yaml)
    requires ConstraintStep(result, key, value).Ok?
    ensures ConstraintStep(result, key, value).value == Put(result, key, value)
  {
  }

  /** With distinct input keys, each key holds the given value, or else its default. */
  lemma {:induction false} ConstraintsValues(entries: seq<(string, Yaml)>, key: string)
    requires ConstraintsFrom(entries).Ok? && DistinctKeys(entries)
    ensures Get(ConstraintsFrom(entries).value, key) ==
      if key in Keys(entries) then Get(entries, key) else Get(DefaultConstraints, key)
    decreases |entries|
  {
    if entries != [] {
      var init := entries[..|entries| - 1];
      var last := entries[|entries| - 1];
      assert entries == init + [last];
      ConstraintsSnoc(init, last);
      var before := ConstraintsFrom(init).value;
      assert DistinctKeys(init);
      assert Keys(entries) == Keys(init) + [last.0];
      ConstraintsValues(init, key);
      GetPut(before, last.0, last.1, key);
      GetSnoc(init, last.0, last.1, key);
    }
  }

  /** Once a prefix fails, the whole loop fails with the same error. */
  lemma {:induction false} ConstraintsStop(entries: seq<(string, Yaml)>, n: nat)
    requires n <= |entries| && ConstraintsFrom(entries[..n]).Err?
    ensures ConstraintsFrom(entries) == ConstraintsFrom(entries[..n])
    decreases |entries|
  {
    if n < |entries| {
      var init := entries[..|entries| - 1];
      assert init[..n] == entries[..n];
      ConstraintsStop(init, n);
    } else {
      assert entries[..n] == entries;
    }
  }

  /** `_validate_constraints`: a copy of the defaults, updated entry by entry. */
  method ValidateConstraints(constraints: Yaml) returns (r: Result<seq<(string, Yaml)>, Error>)
    ensures r == ConstraintsOf(constraints)
  {
    if !constraints.YDict? {
      return Err(TypeError);
    }
    var entries := constraints.entries;
    var result := DefaultConstraints;
    var i := 0;
    while i < |entries|
      invariant 0 <= i <= |entries|
      invariant ConstraintsFrom(entries[..i]) == Ok(result)
    {
      assert entries[..i + 1][..i] == entries[..i];
      var (key, value) := entries[i];
      var step := ConstraintStep(result, key, value);
      if step.Err? {
        ConstraintsStop(entries, i + 1);
        return Err(step.error);
      }
      result := step.value;
      i := i + 1;
    }
    assert entries[..i] == entries;
    r := Ok(result);
  }

  // ---------------------------------------------------------------- style

  /** `key in style` for a value that is not a mapping: list membership, or a substring test on a string. */
  predicate MentionsKey(style: Yaml, key: string)
    requires style.YList? || style.YStr?
  {
    if style.YList? then YStr(key) in style.items else Contains(style.s, key)
  }

  /** One of the four keys `_validate_style` looks up is "in" a value that is not a mapping. */
  predicate MentionsAnyKey(style: Yaml)
    requires style.YList? || style.YStr?
  {
    || MentionsKey(style, "tone") || MentionsKey(style, "citation_format")
    || MentionsKey(style, "complexity") || MentionsKey(style, "additional_instructions")
  }

  /** A looked-up style value that is one of the allowed strings. */
  predicate Allowed(v: Yaml, allowed: seq<string>)
  {
    v.YStr? && v.s in allowed
  }

  /**
   * `_validate_style`: tone, citation format and complexity are checked in
   * that order against their lists, and additional instructions are copied
   * unchecked. On a list or a string, a mentioned key raises when it is
   * indexed; any other non-mapping raises at the first `in`.
   */
  function StyleOf(style: Yaml): (r: Result<Style, Error>)
    ensures r.Ok? ==>
      && r.value.tone in ValidTones
      && r.value.citationFormat in ValidCitationFormats
      && r.value.complexity in ValidComplexityLevels
  {
    if style.YDict? then
      var e := style.entries;
      var tone := Get(e, "tone");
      var format := Get(e, "citation_format");
      var complexity := Get(e, "complexity");
      var extra := Get(e, "additional_instructions");
      if tone.Some? && !Allowed(tone.value, ValidTones) then Err(InvalidTone(tone.value))
      else if format.Some? && !Allowed(format.value, ValidCitationFormats) then Err(InvalidCitationFormat(format.value))
      else if complexity.Some? && !Allowed(complexity.value, ValidComplexityLevels) then Err(InvalidComplexity(complexity.value))
      else
        Ok(Style(if tone.Some? then tone.value.s else DefaultStyle.tone,
                 if format.Some? then format.value.s else DefaultStyle.citationFormat,
                 if complexity.Some? then complexity.value.s else DefaultStyle.complexity,
                 if extra.Some? then extra.value else DefaultStyle.additionalInstructions))
    else if style.YList? || style.YStr? then
      if MentionsAnyKey(style) then Err(TypeError) else Ok(DefaultStyle)
    else Err(TypeError)
  }

  /** `_validate_style`: a copy of the defaults, updated field by field. */
  method ValidateStyle(style: Yaml) returns (r: Result<Style, Error>)
    ensures r == StyleOf(style)
  {
    if !style.YDict? {
      if (style.YList? || style.YStr?) && !MentionsAnyKey(style) {
        return Ok(DefaultStyle);
      }
      return Err(TypeError);
    }
    var e := style.entries;
    var result := DefaultStyle;
    var tone := Get(e, "tone");
    if tone.Some? {
      if !Allowed(tone.value, ValidTones) {
        return Err(InvalidTone(tone.value));
      }
      result := result.(tone := tone.value.s);
    }
    var format := Get(e, "citation_format");
    if format.Some? {
      if !Allowed(format.value, ValidCitationFormats) {
        return Err(InvalidCitationFormat(format.value));
      }
      result := result.(citationFormat := format.value.s);
    }
    var complexity := Get(e, "complexity");
    if complexity.Some? {
      if !Allowed(complexity.value, ValidComplexityLevels) {
        return Err(InvalidComplexity(complexity.value));
      }
      result := result.(complexity := complexity.value.s);
    }
    var extra := Get(e, "additional_instructions");
    if extra.Some? {
      result := result.(additionalInstructions := extra.value);
    }
    r := Ok(result);
  }

  /** Each style field is the given value when the mapping has one, and its default otherwise. */
  lemma StyleSpec(entries: seq<(string, Yaml)>)
    requires StyleOf(YDict(entries)).Ok?
    ensures var s := StyleOf(YDict(entries)).value;
      && (Get(entries, "tone").Some? ==> YStr(s.tone) == Get(entries, "tone").value)
      && (Get(entries, "tone").None? ==> s.tone == "professional")
      && (Get(entries, "citation_format").Some? ==> YStr(s.citationFormat) == Get(entries, "citation_format").value)
      && (Get(entries, "citation_format").None? ==> s.citationFormat == "APA")
      && (Get(entries, "complexity").Some? ==> YStr(s.complexity) == Get(entries, "complexity").value)
      && (Get(entries, "complexity").None? ==> s.complexity == "undergraduate")
      && s.additionalInstructions == (if Get(entries, "additional_instructions").Some?
                                      then Get(entries, "additional_instructions").value else YNull)
  {
  }

  /** A mapping fails exactly when a present tone, format or complexity is not in its list, the first such one reported. */
  lemma StyleErrors(entries: seq<(string, Yaml)>)
    ensures StyleOf(YDict(entries)).Err? <==>
      || (Get(entries, "tone").Some? && !Allowed(Get(entries, "tone").value, ValidTones))
      || (Get(entries, "citation_format").Some? && !Allowed(Get(entries, "citation_format").value, ValidCitationFormats))
      || (Get(entries, "complexity").Some? && !Allowed(Get(entries, "complexity").value, ValidComplexityLevels))
    ensures Get(entries, "tone").Some? && !Allowed(Get(entries, "tone").value, ValidTones) ==>
      StyleOf(YDict(entries)) == Err(InvalidTone(Get(entries, "tone").value))
  {
  }

  /** A missing style, `{}`, gives the defaults. */
  lemma EmptyStyleIsDefault()
    ensures StyleOf(YDict([])) == Ok(DefaultStyle)
  {
  }

  // ---------------------------------------------------------------- validate

  /** A looked-up optional field, `{}` when absent. */
  function FieldOr(data: seq<(string, Yaml)>, key: string): Yaml
  {
    var v := Get(data, key);
    if v.Some? then v.value else YDict([])
  }

  /** The outcome of `validate` from the outcomes of its checks, the first failure winning. */
  function Assemble(missing: Option<Error>, topic: Result<string, Error>, template: Result<seq<string>, Error>,
                    constraints: Result<seq<(string, Yaml)>, Error>, style: Result<Style, Error>): Result<Config, Error>
  {
    if missing.Some? then Err(missing.value)
    else if topic.Err? then Err(topic.error)
    else if template.Err? then Err(template.error)
    else if constraints.Err? then Err(constraints.error)
    else if style.Err? then Err(style.error)
    else Ok(Config(topic.value, template.value, constraints.value, style.value))
  }

  /** `validate`: required fields, then topic, template, constraints and style. */
  function ValidateSpec(data: seq<(string, Yaml)>): Result<Config, Error>
  {
    var missing := RequiredFields(data);
    if missing.Some? then Err(missing.value)
    else
      Assemble(None, TopicOf(Get(data, "topic").value), TemplateOf(Get(data, "template").value),
               ConstraintsOf(FieldOr(data, "constraints")), StyleOf(FieldOr(data, "style")))
  }

  /** A successful outcome is made of successful checks. */
  lemma AssembleParts(missing: Option<Error>, topic: Result<string, Error>, template: Result<seq<string>, Error>,
                      constraints: Result<seq<(string, Yaml)>, Error>, style: Result<Style, Error>, c: Config)
    requires Assemble(missing, topic, template, constraints, style) == Ok(c)
    ensures missing.None? && topic == Ok(c.topic) && template == Ok(c.template)
    ensures constraints == Ok(c.constraints) && style == Ok(c.style)
  {
  }

  /** A successful validation is made of the successful results of the four checks. */
  lemma ValidateParts(data: seq<(string, Yaml)>, c: Config)
    requires ValidateSpec(data) == Ok(c)
    ensures "topic" in Keys(data) && "template" in Keys(data)
    ensures TopicOf(Get(data, "topic").value) == Ok(c.topic)
    ensures TemplateOf(Get(data, "template").value) == Ok(c.template)
    ensures ConstraintsOf(FieldOr(data, "constraints")) == Ok(c.constraints)
    ensures StyleOf(FieldOr(data, "style")) == Ok(c.style)
  {
    AssembleParts(None, TopicOf(Get(data, "topic").value), TemplateOf(Get(data, "template").value),
                  ConstraintsOf(FieldOr(data, "constraints")), StyleOf(FieldOr(data, "style")), c);
  }

  /**
   * What a successful validation guarantees to the rest of the pipeline: a
   * topic of at least ten characters (stripped, by `TopicStripped`), one to forty non-blank section
   * names, the three constraint keys with positive integers, and allowed
   * style values.
   */
  lemma ValidatedShape(topic: Yaml, template: Yaml, constraints: Yaml, style: Yaml, c: Config)
    requires TopicOf(topic) == Ok(c.topic) && TemplateOf(template) == Ok(c.template)
    requires ConstraintsOf(constraints) == Ok(c.constraints) && StyleOf(style) == Ok(c.style)
    ensures |c.topic| >= MinTopicLength
    ensures 1 <= |c.template| <= MaxSections
    ensures forall k :: 0 <= k < |c.template| ==> c.template[k] != []
    ensures Keys(c.constraints) == Keys(DefaultConstraints)
    ensures forall k :: 0 <= k < |c.constraints| ==> GoodConstraint(c.constraints[k])
    ensures c.style.tone in ValidTones && c.style.citationFormat in ValidCitationFormats
    ensures c.style.complexity in ValidComplexityLevels
  {
    assert |c.topic| >= MinTopicLength by { TopicAccepted(topic); }
    assert 1 <= |c.template| <= MaxSections && forall k :: 0 <= k < |c.template| ==> c.template[k] != [] by {
      TemplateShape(template);
    }
    assert Keys(c.constraints) == Keys(DefaultConstraints) by { ConstraintsKeys(constraints.entries); }
    assert forall k :: 0 <= k < |c.constraints| ==> GoodConstraint(c.constraints[k]) by {
      ConstraintsGood(constraints.entries);
    }
  }

  /** Every constraint value in a successful result is a positive integer under a default key. */
  lemma {:induction false} ConstraintsGood(entries: seq<(string, Yaml)>)
    requires ConstraintsFrom(entries).Ok?
    ensures forall k :: 0 <= k < |ConstraintsFrom(entries).value| ==> GoodConstraint(ConstraintsFrom(entries).value[k])
    decreases |entries|
  {
    if entries != [] {
      var init := entries[..|entries| - 1];
      var last := entries[|entries| - 1];
      ConstraintsGood(init);
      PutGood(ConstraintsFrom(init).value, last);
    }
  }

  lemma {:induction false} PutGood(m: seq<(string, Yaml)>, e: (string, Yaml))
    requires forall k :: 0 <= k < |m| ==> GoodConstraint(m[k])
    requires GoodConstraint(e)
    ensures forall k :: 0 <= k < |Put(m, e.0, e.1)| ==> GoodConstraint(Put(m, e.0, e.1)[k])
    decreases |m|
  {
    if m != [] && m[0].0 != e.0 {
      PutGood(m[1..], e);
    }
  }

  /** `validate`: the same steps, with the loops of the template and constraint checks. */
  method Validate(data: seq<(string, Yaml)>) returns (r: Result<Config, Error>)
    ensures r == ValidateSpec(data)
  {
    var missing := RequiredFields(data);
    if missing.Some? {
      return Err(missing.value);
    }
    var topic := TopicOf(Get(data, "topic").value);
    if topic.Err? {
      return Err(topic.error);
    }
    var template := ValidateTemplate(Get(data, "template").value);
    if template.Err? {
      return Err(template.error);
    }
    var constraints := ValidateConstraints(FieldOr(data, "constraints"));
    if constraints.Err? {
      return Err(constraints.error);
    }
    var style := ValidateStyle(FieldOr(data, "style"));
    if style.Err? {
      return Err(style.error);
    }
    r := Ok(Config(topic.value, template.value, constraints.value, style.value));
  }
}
