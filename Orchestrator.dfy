/**
 * The orchestrator-workers pattern of
 * ai_workflows/02-workflow_patterns/04_orchestrator.py: a planner splits a
 * blog topic into sections, a worker writes each section seeing the
 * sections written so far, and a reviewer reads them all. The three model
 * calls are functions the orchestrator is constructed with; it records the
 * calls it makes, with the inputs each one is given.
 */
module Orchestrator {
  import opened Strings

  datatype SubTask = SubTask(sectionType: string, description: string, styleGuide: string, targetLength: int)

  /** The fields of a section the worker's prompt is formatted with; the planned length is not among them */
  datatype Brief = Brief(sectionType: string, description: string, styleGuide: string)

  function BriefOf(s: SubTask): Brief {
    Brief(s.sectionType, s.description, s.styleGuide)
  }

  datatype OrchestratorPlan = OrchestratorPlan(topicAnalysis: string, targetAudience: string, sections: seq<SubTask>)

  datatype SectionContent = SectionContent(content: string, keyPoints: seq<string>)

  datatype SuggestedEdits = SuggestedEdits(sectionName: string, suggestedEdit: string)

  datatype ReviewFeedback = ReviewFeedback(cohesionScore: real, suggestedEdits: seq<SuggestedEdits>, finalVersion: string)

  /** One item of the `sections_content` dict, which keeps its items in insertion order */
  datatype Stored = Stored(sectionType: string, content: SectionContent)

  datatype BlogPost = BlogPost(structure: OrchestratorPlan, sections: seq<Stored>, review: ReviewFeedback)

  /**
   * One model call, with what it is given: the planner the topic, length
   * and style; the worker (through `write_section`) the topic, its planned
   * section and the note on previous sections, of which the prompt shows
   * only the section's `Brief`; the reviewer the topic, the audience and the
   * sections' text.
   */
  datatype Call =
    | PlanCall(topic: string, targetLength: int, style: string)
    | WriteCall(topic: string, section: SubTask, note: string)
    | ReviewCall(topic: string, audience: string, sectionsText: string)

  // ----- the insertion-ordered dict -----

  /** The dict's keys, in insertion order */
  function Keys(d: seq<Stored>): (ks: seq<string>)
    ensures |ks| == |d| && forall i :: 0 <= i < |d| ==> ks[i] == d[i].sectionType
  {
    if d == [] then [] else [d[0].sectionType] + Keys(d[1..])
  }

  predicate DistinctKeys(d: seq<Stored>) {
    forall i, j :: 0 <= i < j < |d| ==> d[i].sectionType != d[j].sectionType
  }

  /** `d.get(key)` */
  function Lookup(d: seq<Stored>, key: string): Option<SectionContent> {
    if d == [] then None
    else if d[0].sectionType == key then Some(d[0].content)
    else Lookup(d[1..], key)
  }

  /** `d[key] = value`: a key already present keeps its place, a new key goes last */
  function Put(d: seq<Stored>, key: string, value: SectionContent): seq<Stored> {
    if d == [] then [Stored(key, value)]
    else if d[0].sectionType == key then [Stored(key, value)] + d[1..]
    else [d[0]] + Put(d[1..], key, value)
  }

  /**
   * After `d[key] = value` the key holds the value, every other key holds
   * what it held, and the keys are the old ones in the old order, with the
   * key added last when it is new.
   */
  lemma {:induction false} PutSemantics(d: seq<Stored>, key: string, value: SectionContent)
    ensures var r := Put(d, key, value);
      && Keys(r) == (if key in Keys(d) then Keys(d) else Keys(d) + [key])
      && Lookup(r, key) == Some(value)
      && forall k :: k != key ==> Lookup(r, k) == Lookup(d, k)
    decreases |d|
  {
    if d != [] && d[0].sectionType != key {
      PutSemantics(d[1..], key, value);
      var r := Put(d, key, value);
      assert r[1..] == Put(d[1..], key, value);
      assert Keys(d) == [d[0].sectionType] + Keys(d[1..]);
      assert key in Keys(d) <==> key in Keys(d[1..]);
    }
  }

  /** Storing under a key keeps the keys distinct. */
  lemma PutKeepsDistinct(d: seq<Stored>, key: string, value: SectionContent)
    requires DistinctKeys(d)
    ensures DistinctKeys(Put(d, key, value))
  {
    var r := Put(d, key, value);
    PutSemantics(d, key, value);
    var ks := Keys(r);
    forall i, j | 0 <= i < j < |r| ensures r[i].sectionType != r[j].sectionType {
      assert ks[i] == r[i].sectionType && ks[j] == r[j].sectionType;
      if key !in Keys(d) && j == |d| {
        assert ks[i] == Keys(d)[i];
      } else {
        assert ks[i] == Keys(d)[i] && ks[j] == Keys(d)[j];
      }
    }
  }

  // ----- the worker's context and the reviewer's text -----

  /** How `write_section` shows one stored section */
  function ContextEntry(s: Stored): string {
    "=== " + s.sectionType + " ===\n" + s.content.content
  }

  function ContextEntries(d: seq<Stored>): (r: seq<string>)
    ensures |r| == |d| && forall i :: 0 <= i < |d| ==> r[i] == ContextEntry(d[i])
  {
    seq(|d|, i requires 0 <= i < |d| => ContextEntry(d[i]))
  }

  /** `previous_sections` */
  function PreviousSections(d: seq<Stored>): string {
    Join(ContextEntries(d), "\n")
  }

  const FirstSectionNote := "This is the first section."

  /** The note the worker gets about the sections written so far */
  function Note(d: seq<Stored>): string {
    var previous := PreviousSections(d);
    if previous != "" then "Previous sections:" + previous else FirstSectionNote
  }

  /** How `review_blog_post` shows one stored section */
  function ReviewEntry(s: Stored): string {
    "##" + s.sectionType + "\n" + s.content.content
  }

  function ReviewEntries(d: seq<Stored>): (r: seq<string>)
    ensures |r| == |d| && forall i :: 0 <= i < |d| ==> r[i] == ReviewEntry(d[i])
  {
    seq(|d|, i requires 0 <= i < |d| => ReviewEntry(d[i]))
  }

  /** `sections_text` */
  function SectionsText(d: seq<Stored>): string {
    Join(ReviewEntries(d), "\n\n")
  }

  /**
   * The context shows every stored section, in insertion order: section
   * `i` appears as "=== type ===\ncontent", the next one starts after a
   * single "\n", and the last one ends the context.
   */
  lemma ContextLayout(d: seq<Stored>, i: nat)
    requires i < |d|
    ensures var p := PreviousSections(d);
      var at := PartStart(ContextEntries(d), "\n", i);
      && OccursAt(p, "=== " + d[i].sectionType + " ===\n" + d[i].content.content, at)
      && (i + 1 < |d| ==>
            OccursAt(p, "\n", at + |ContextEntry(d[i])|)
            && PartStart(ContextEntries(d), "\n", i + 1) == at + |ContextEntry(d[i])| + 1)
      && (i + 1 == |d| ==> at + |ContextEntry(d[i])| == |p|)
  {
    JoinPart(ContextEntries(d), "\n", i);
  }

  /** The reviewer's text shows every stored section as "##type\ncontent", in insertion order, with "\n\n" between, the last one ending the text. */
  lemma ReviewLayout(d: seq<Stored>, i: nat)
    requires i < |d|
    ensures var t := SectionsText(d);
      var at := PartStart(ReviewEntries(d), "\n\n", i);
      && OccursAt(t, "##" + d[i].sectionType + "\n" + d[i].content.content, at)
      && (i + 1 < |d| ==>
            OccursAt(t, "\n\n", at + |ReviewEntry(d[i])|)
            && PartStart(ReviewEntries(d), "\n\n", i + 1) == at + |ReviewEntry(d[i])| + 2)
      && (i + 1 == |d| ==> at + |ReviewEntry(d[i])| == |t|)
  {
    JoinPart(ReviewEntries(d), "\n\n", i);
  }

  /** The worker is told "This is the first section." exactly when nothing is stored yet. */
  lemma NoteFirstIffEmpty(d: seq<Stored>)
    ensures Note(d) == FirstSectionNote <==> d == []
    ensures d != [] ==> Note(d) == "Previous sections:" + PreviousSections(d)
  {
    if d != [] {
      JoinPart(ContextEntries(d), "\n", 0);
      assert PreviousSections(d) != "";
      assert Note(d)[0] != FirstSectionNote[0];
    } else {
      assert ContextEntries(d) == [];
    }
  }

  // ----- write_blog -----

  /** The dict after the `for section` loop, and the worker calls it made */
  datatype Filled = Filled(store: seq<Stored>, calls: seq<Call>)

  /** The `for section in plan.sections` loop of `write_blog`, from the dict it starts with */
  function WriteSections(store: seq<Stored>, topic: string, sections: seq<SubTask>,
                         writer: (string, Brief, string) -> SectionContent): Filled
    decreases |sections|
  {
    if sections == [] then Filled(store, [])
    else
      var note := Note(store);
      var rest := WriteSections(Put(store, sections[0].sectionType, writer(topic, BriefOf(sections[0]), note)),
                                topic, sections[1..], writer);
      Filled(rest.store, [WriteCall(topic, sections[0], note)] + rest.calls)
  }

  function SectionTypes(sections: seq<SubTask>): (r: seq<string>)
    ensures |r| == |sections| && forall k :: 0 <= k < |sections| ==> r[k] == sections[k].sectionType
  {
    seq(|sections|, k requires 0 <= k < |sections| => sections[k].sectionType)
  }

  /** The worker is called exactly once per planned section, in plan order, with the topic. */
  lemma {:induction false} WriteSectionsCalls(store: seq<Stored>, topic: string, sections: seq<SubTask>,
                                              writer: (string, Brief, string) -> SectionContent)
    ensures var f := WriteSections(store, topic, sections, writer);
      && |f.calls| == |sections|
      && forall k :: 0 <= k < |sections| ==> f.calls[k].WriteCall? && f.calls[k].topic == topic && f.calls[k].section == sections[k]
    decreases |sections|
  {
    if sections != [] {
      var next := Put(store, sections[0].sectionType, writer(topic, BriefOf(sections[0]), Note(store)));
      WriteSectionsCalls(next, topic, sections[1..], writer);
      var f := WriteSections(store, topic, sections, writer);
      forall k | 0 < k < |sections|
        ensures f.calls[k].WriteCall? && f.calls[k].topic == topic && f.calls[k].section == sections[k]
      {
        assert sections[1..][k - 1] == sections[k];
      }
    }
  }

  /**
   * The dict is never reset: the sections already stored keep their place,
   * and every planned section's type is stored.
   */
  lemma {:induction false} WriteSectionsKeys(store: seq<Stored>, topic: string, sections: seq<SubTask>,
                                             writer: (string, Brief, string) -> SectionContent)
    ensures var f := WriteSections(store, topic, sections, writer);
      && Keys(store) <= Keys(f.store)
      && (forall k :: 0 <= k < |sections| ==> sections[k].sectionType in Keys(f.store))
    decreases |sections|
  {
    if sections != [] {
      var key := sections[0].sectionType;
      var next := Put(store, key, writer(topic, BriefOf(sections[0]), Note(store)));
      PutSemantics(store, key, writer(topic, BriefOf(sections[0]), Note(store)));
      WriteSectionsKeys(next, topic, sections[1..], writer);
      var f := WriteSections(store, topic, sections, writer);
      assert Keys(store) <= Keys(next);
      forall k | 0 < k < |sections| ensures sections[k].sectionType in Keys(f.store) {
        assert sections[1..][k - 1] == sections[k];
      }
      assert key in Keys(next);
    }
  }

  /** Only the sections already stored and the planned ones are in the dict afterwards. */
  lemma {:induction false} WriteSectionsOnlyPlanned(store: seq<Stored>, topic: string, sections: seq<SubTask>,
                                                    writer: (string, Brief, string) -> SectionContent)
    ensures forall t :: t in Keys(WriteSections(store, topic, sections, writer).store) ==>
      t in Keys(store) || t in SectionTypes(sections)
    decreases |sections|
  {
    if sections != [] {
      var key := sections[0].sectionType;
      var next := Put(store, key, writer(topic, BriefOf(sections[0]), Note(store)));
      PutSemantics(store, key, writer(topic, BriefOf(sections[0]), Note(store)));
      WriteSectionsOnlyPlanned(next, topic, sections[1..], writer);
      SectionTypesCons(sections);
    }
  }

  lemma SectionTypesCons(sections: seq<SubTask>)
    requires sections != []
    ensures SectionTypes(sections) == [sections[0].sectionType] + SectionTypes(sections[1..])
  {
  }

  /** The dict's keys stay distinct through the loop. */
  lemma {:induction false} WriteSectionsDistinct(store: seq<Stored>, topic: string, sections: seq<SubTask>,
                                                 writer: (string, Brief, string) -> SectionContent)
    requires DistinctKeys(store)
    ensures DistinctKeys(WriteSections(store, topic, sections, writer).store)
    decreases |sections|
  {
    if sections != [] {
      var key := sections[0].sectionType;
      PutKeepsDistinct(store, key, writer(topic, BriefOf(sections[0]), Note(store)));
      WriteSectionsDistinct(Put(store, key, writer(topic, BriefOf(sections[0]), Note(store))), topic, sections[1..], writer);
    }
  }

  /** A type the loop does not plan keeps the value it had before the loop. */
  lemma {:induction false} WriteSectionsUntouched(store: seq<Stored>, topic: string, sections: seq<SubTask>,
                                                  writer: (string, Brief, string) -> SectionContent, t: string)
    requires forall j :: 0 <= j < |sections| ==> sections[j].sectionType != t
    ensures Lookup(WriteSections(store, topic, sections, writer).store, t) == Lookup(store, t)
    decreases |sections|
  {
    if sections != [] {
      var key := sections[0].sectionType;
      var next := Put(store, key, writer(topic, BriefOf(sections[0]), Note(store)));
      PutSemantics(store, key, writer(topic, BriefOf(sections[0]), Note(store)));
      forall j | 0 <= j < |sections[1..]| ensures sections[1..][j].sectionType != t {
        assert sections[1..][j] == sections[j + 1];
      }
      WriteSectionsUntouched(next, topic, sections[1..], writer, t);
    }
  }

  /**
   * The last planned section of a type wins: after the loop the dict holds,
   * for that type, what the worker wrote for it, given the note it was given.
   */
  lemma {:induction false} WriteSectionsLastWins(store: seq<Stored>, topic: string, sections: seq<SubTask>,
                                                 writer: (string, Brief, string) -> SectionContent, k: nat)
    requires k < |sections|
    requires forall j :: k < j < |sections| ==> sections[j].sectionType != sections[k].sectionType
    ensures var f := WriteSections(store, topic, sections, writer);
      && k < |f.calls| && f.calls[k].WriteCall?
      && Lookup(f.store, sections[k].sectionType) == Some(writer(topic, BriefOf(sections[k]), f.calls[k].note))
    decreases k
  {
    var key := sections[0].sectionType;
    var next := Put(store, key, writer(topic, BriefOf(sections[0]), Note(store)));
    WriteSectionsCalls(store, topic, sections, writer);
    if k == 0 {
      PutSemantics(store, key, writer(topic, BriefOf(sections[0]), Note(store)));
      forall j | 0 <= j < |sections[1..]| ensures sections[1..][j].sectionType != key {
        assert sections[1..][j] == sections[j + 1];
      }
      WriteSectionsUntouched(next, topic, sections[1..], writer, key);
    } else {
      forall j | k - 1 < j < |sections[1..]|
        ensures sections[1..][j].sectionType != sections[1..][k - 1].sectionType
      {
        assert sections[1..][j] == sections[j + 1];
      }
      WriteSectionsLastWins(next, topic, sections[1..], writer, k - 1);
      assert sections[1..][k - 1] == sections[k];
    }
  }

  /**
   * Every worker is given the note on the dict as the sections before it
   * left it, so it sees what the earlier workers wrote.
   */
  lemma {:induction false} WorkerNote(store: seq<Stored>, topic: string, sections: seq<SubTask>,
                                      writer: (string, Brief, string) -> SectionContent, k: nat)
    requires k < |sections|
    ensures var f := WriteSections(store, topic, sections, writer);
      && k < |f.calls| && f.calls[k].WriteCall?
      && f.calls[k].note == Note(WriteSections(store, topic, sections[..k], writer).store)
    decreases k
  {
    WriteSectionsCalls(store, topic, sections, writer);
    if k > 0 {
      var next := Put(store, sections[0].sectionType, writer(topic, BriefOf(sections[0]), Note(store)));
      WorkerNote(next, topic, sections[1..], writer, k - 1);
      var before := sections[..k];
      assert before[0] == sections[0] && before[1..] == sections[1..][..k - 1];
      assert WriteSections(store, topic, before, writer).store
        == WriteSections(next, topic, sections[1..][..k - 1], writer).store;
    }
  }

  /** Starting from an empty dict, the first worker is told it writes the first section. */
  lemma FirstWorkerNote(topic: string, sections: seq<SubTask>, writer: (string, Brief, string) -> SectionContent)
    requires sections != []
    ensures WriteSections([], topic, sections, writer).calls[0].note == FirstSectionNote
  {
    NoteFirstIffEmpty([]);
  }

  class BlogOrchestrator {
    var sectionsContent: seq<Stored>
    ghost var calls: seq<Call>
    const planner: (string, int, string) -> OrchestratorPlan
    const writer: (string, Brief, string) -> SectionContent
    const reviewer: (string, string, string) -> ReviewFeedback

    /** `__init__`: the dict starts empty */
    constructor (planner: (string, int, string) -> OrchestratorPlan,
                 writer: (string, Brief, string) -> SectionContent,
                 reviewer: (string, string, string) -> ReviewFeedback)
      ensures sectionsContent == [] && calls == []
      ensures this.planner == planner && this.writer == writer && this.reviewer == reviewer
    {
      sectionsContent := [];
      calls := [];
      this.planner := planner;
      this.writer := writer;
      this.reviewer := reviewer;
    }

    /** `get_orchestrator_plan(topic_name, target_length, writing_style)` */
    method GetOrchestratorPlan(topic: string, targetLength: int, style: string) returns (plan: OrchestratorPlan)
      modifies this
      ensures plan == planner(topic, targetLength, style)
      ensures calls == old(calls) + [PlanCall(topic, targetLength, style)]
      ensures sectionsContent == old(sectionsContent)
    {
      calls := calls + [PlanCall(topic, targetLength, style)];
      plan := planner(topic, targetLength, style);
    }

    /** `write_section(topic_name, section)`: the worker sees every section stored so far */
    method WriteSection(topic: string, section: SubTask) returns (content: SectionContent)
      modifies this
      ensures content == writer(topic, BriefOf(section), Note(sectionsContent))
      ensures calls == old(calls) + [WriteCall(topic, section, Note(sectionsContent))]
      ensures sectionsContent == old(sectionsContent)
    {
      var note := Note(sectionsContent);
      calls := calls + [WriteCall(topic, section, note)];
      content := writer(topic, BriefOf(section), note);
    }

    /** `review_blog_post(topic_name, plan)`: the reviewer reads every stored section */
    method ReviewBlogPost(topic: string, plan: OrchestratorPlan) returns (review: ReviewFeedback)
      modifies this
      ensures review == reviewer(topic, plan.targetAudience, SectionsText(sectionsContent))
      ensures calls == old(calls) + [ReviewCall(topic, plan.targetAudience, SectionsText(sectionsContent))]
      ensures sectionsContent == old(sectionsContent)
    {
      var text := SectionsText(sectionsContent);
      calls := calls + [ReviewCall(topic, plan.targetAudience, text)];
      review := reviewer(topic, plan.targetAudience, text);
    }

    /** The `for section in plan.sections` loop of `write_blog` */
    method WriteAllSections(topic: string, sections: seq<SubTask>)
      modifies this
      ensures var f := WriteSections(old(sectionsContent), topic, sections, writer);
        sectionsContent == f.store && calls == old(calls) + f.calls
    {
      ghost var goal := WriteSections(sectionsContent, topic, sections, writer);
      ghost var before := calls;
      var remaining := sections;
      while remaining != []
        invariant WriteSections(sectionsContent, topic, remaining, writer).store == goal.store
        invariant calls + WriteSections(sectionsContent, topic, remaining, writer).calls == before + goal.calls
        decreases |remaining|
      {
        ghost var callsBefore := calls;
        ghost var note := Note(sectionsContent);
        var section := remaining[0];
        var content := WriteSection(topic, section);
        sectionsContent := Put(sectionsContent, section.sectionType, content);
        remaining := remaining[1..];
        ghost var rest := WriteSections(sectionsContent, topic, remaining, writer);
        assert calls + rest.calls == callsBefore + ([WriteCall(topic, section, note)] + rest.calls);
      }
    }

    /**
     * `write_blog(topic_name, target_length, writing_style)`: one planner
     * call, one worker call per planned section in order, one reviewer call
     * over the dict as it is then, and a post that carries the plan, the
     * dict and the review.
     */
    method WriteBlog(topic: string, targetLength: int, style: string) returns (post: BlogPost)
      modifies this
      ensures var plan := planner(topic, targetLength, style);
        var f := WriteSections(old(sectionsContent), topic, plan.sections, writer);
        var review := ReviewCall(topic, plan.targetAudience, SectionsText(f.store));
        && sectionsContent == f.store
        && post == BlogPost(plan, f.store, reviewer(topic, plan.targetAudience, SectionsText(f.store)))
        && calls == old(calls) + [PlanCall(topic, targetLength, style)] + f.calls + [review]
    {
      var plan := GetOrchestratorPlan(topic, targetLength, style);
      WriteAllSections(topic, plan.sections);
      var review := ReviewBlogPost(topic, plan);
      post := BlogPost(plan, sectionsContent, review);
    }
  }
}
