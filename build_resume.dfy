/** The résumé builder: from the ingested record, write one Markdown résumé for a
    target variant type. Each slot contributes the content of its variant of that
    type, or of the master variant when the slot has none of that type.

    The record is the value `json.load` returns; reading it, the output file and
    the console messages are not part of this model. */
module BuildResume {
  import opened Common
  import IngestResume

  type Slot = IngestResume.Slot
  type Variant = IngestResume.Variant
  type Edu = IngestResume.Edu
  type Summary = IngestResume.Summary

  /** `MASTER_VARIANT` */
  const Master := IngestResume.Master

  type Basics = IngestResume.Basics
  type Job = IngestResume.Job
  type Record = IngestResume.Record

  // ---------------------------------------------------------------------
  // Variant selection

  /** The content of the first variant of type `t`. */
  function FirstMatch(vs: seq<Variant>, t: string): (r: Option<string>)
    ensures r.None? <==> forall k :: 0 <= k < |vs| ==> vs[k].vtype != t
    ensures r.Some? ==> exists k :: 0 <= k < |vs| && vs[k].vtype == t && vs[k].content == r.value &&
                                   forall p :: 0 <= p < k ==> vs[p].vtype != t
  {
    if vs == [] then None
    else if vs[0].vtype == t then Some(vs[0].content)
    else
      var r := FirstMatch(vs[1..], t);
      assert forall k :: 1 <= k < |vs| ==> vs[k] == vs[1..][k - 1];
      r
  }

  /** `get_variant_content` */
  function GetVariantContent(slot: Slot, target: string): Option<string> {
    match FirstMatch(slot.variants, target)
    case Some(c) => Some(c)
    case None => if target != Master then FirstMatch(slot.variants, Master) else None
  }

  /** An exact match wins; otherwise the first master variant, unless the target is
      the master type itself; otherwise nothing. */
  lemma GetVariantContentFacts(slot: Slot, target: string)
    ensures var vs := slot.variants;
      && ((exists k :: 0 <= k < |vs| && vs[k].vtype == target) ==> GetVariantContent(slot, target) == FirstMatch(vs, target))
      && ((forall k :: 0 <= k < |vs| ==> vs[k].vtype != target) && target != Master ==>
            GetVariantContent(slot, target) == FirstMatch(vs, Master))
      && (GetVariantContent(slot, target).None? <==>
            (forall k :: 0 <= k < |vs| ==> vs[k].vtype != target && vs[k].vtype != Master))
  {
  }

  /** The `target_role != MASTER_VARIANT` guard only saves a second search: without
      it the answer would be the same. */
  lemma FallbackGuardRedundant(slot: Slot, target: string)
    ensures GetVariantContent(slot, target) ==
      (if FirstMatch(slot.variants, target).Some? then FirstMatch(slot.variants, target)
       else FirstMatch(slot.variants, Master))
  {
  }

  /** On a slot from the ingestion (its variants of distinct types), the variant of the
      target type, when there is one, is the one selected. */
  lemma DistinctTypesLookup(slot: Slot, target: string, k: nat)
    requires IngestResume.TypesDistinct(slot.variants)
    requires k < |slot.variants| && slot.variants[k].vtype == target
    ensures GetVariantContent(slot, target) == Some(slot.variants[k].content)
  {
    var vs := slot.variants;
    var r := FirstMatch(vs, target);
    var j :| 0 <= j < |vs| && vs[j].vtype == target && vs[j].content == r.value &&
      forall p :: 0 <= p < j ==> vs[p].vtype != target;
    assert !(j < k) && !(k < j);
  }

  // ---------------------------------------------------------------------
  // Header: name and contact line

  function Filter(xs: seq<string>, keep: string -> bool): (r: seq<string>)
    ensures |r| <= |xs|
    ensures forall k :: 0 <= k < |r| ==> keep(r[k]) && r[k] in xs
    ensures forall k :: 0 <= k < |xs| && keep(xs[k]) ==> xs[k] in r
  {
    if xs == [] then []
    else
      var r := Filter(xs[..|xs| - 1], keep);
      assert forall k :: 0 <= k < |xs| - 1 ==> xs[..|xs| - 1][k] == xs[k];
      r + (if keep(xs[|xs| - 1]) then [xs[|xs| - 1]] else [])
  }

  /** How many items of `xs` the test accepts. */
  function CountKept(xs: seq<string>, keep: string -> bool): nat
    decreases |xs|
  {
    if xs == [] then 0 else CountKept(xs[..|xs| - 1], keep) + (if keep(xs[|xs| - 1]) then 1 else 0)
  }

  /** The filter keeps order and multiplicity: it has one item per accepted input
      item, and the accepted item at `k` is at the position given by the number of
      accepted items before it. */
  lemma {:induction false} FilterOrder(xs: seq<string>, keep: string -> bool)
    decreases |xs|
    ensures |Filter(xs, keep)| == CountKept(xs, keep)
    ensures forall k :: 0 <= k < |xs| && keep(xs[k]) ==>
      CountKept(xs[..k], keep) < |Filter(xs, keep)| && Filter(xs, keep)[CountKept(xs[..k], keep)] == xs[k]
  {
    if xs != [] {
      var pre := xs[..|xs| - 1];
      FilterOrder(pre, keep);
      var r := Filter(xs, keep);
      assert r[..|Filter(pre, keep)|] == Filter(pre, keep);
      forall k | 0 <= k < |xs| && keep(xs[k])
        ensures CountKept(xs[..k], keep) < |r| && r[CountKept(xs[..k], keep)] == xs[k]
      {
        if k < |pre| {
          assert xs[..k] == pre[..k] && xs[k] == pre[k];
        } else {
          assert xs[..k] == pre;
        }
      }
    }
  }

  lemma {:induction false} FilterAll(xs: seq<string>, keep: string -> bool)
    requires forall k :: 0 <= k < |xs| ==> keep(xs[k])
    ensures Filter(xs, keep) == xs
    decreases |xs|
  {
    if xs != [] {
      FilterAll(xs[..|xs| - 1], keep);
    }
  }

  lemma {:induction false} FilterNone(xs: seq<string>, keep: string -> bool)
    requires forall k :: 0 <= k < |xs| ==> !keep(xs[k])
    ensures Filter(xs, keep) == []
    decreases |xs|
  {
    if xs != [] {
      FilterNone(xs[..|xs| - 1], keep);
    }
  }

  /** `c and str(c) != 'nan'` */
  predicate Shown(c: string) {
    c != "" && c != "nan"
  }

  function Contacts(b: Basics): seq<string> {
    [b.location, b.email, b.phone, b.linkedin, b.portfolio]
  }

  function ContactLine(b: Basics): string {
    Join(Filter(Contacts(b), Shown), " | ")
  }

  function HeaderSection(b: Basics): string {
    "# " + b.name + "\n" + ContactLine(b) + "\n\n"
  }

  lemma JoinFive(a: string, b: string, c: string, d: string, e: string, s: string)
    ensures Join([a, b, c, d, e], s) == a + s + b + s + c + s + d + s + e
  {
    JoinAppend([a], b, s);
    assert [a] + [b] == [a, b];
    JoinAppend([a, b], c, s);
    assert [a, b] + [c] == [a, b, c];
    JoinAppend([a, b, c], d, s);
    assert [a, b, c] + [d] == [a, b, c, d];
    JoinAppend([a, b, c, d], e, s);
    assert [a, b, c, d] + [e] == [a, b, c, d, e];
  }

  /** The contact line joins the shown contacts with " | ": every entry is shown,
      there is one entry per shown contact, and the shown contact at `k` is entry
      number "shown contacts before `k`", so the fixed order is kept. In the two
      extreme cases the line is all five contacts in order, or empty. */
  lemma ContactLineFacts(b: Basics)
    ensures var shown := Filter(Contacts(b), Shown);
      && ContactLine(b) == Join(shown, " | ")
      && (forall k :: 0 <= k < |shown| ==> Shown(shown[k]))
      && (forall k :: 0 <= k < 5 && Shown(Contacts(b)[k]) ==> Contacts(b)[k] in shown)
      && |shown| == CountKept(Contacts(b), Shown)
      && (forall k :: 0 <= k < 5 && Shown(Contacts(b)[k]) ==>
            CountKept(Contacts(b)[..k], Shown) < |shown| && shown[CountKept(Contacts(b)[..k], Shown)] == Contacts(b)[k])
      && ((forall k :: 0 <= k < 5 ==> Shown(Contacts(b)[k])) ==>
            ContactLine(b) == b.location + " | " + b.email + " | " + b.phone + " | " + b.linkedin + " | " + b.portfolio)
      && ((forall k :: 0 <= k < 5 ==> !Shown(Contacts(b)[k])) ==> ContactLine(b) == "")
  {
    var cs := Contacts(b);
    FilterOrder(cs, Shown);
    if forall k :: 0 <= k < 5 ==> Shown(cs[k]) {
      FilterAll(cs, Shown);
      JoinFive(b.location, b.email, b.phone, b.linkedin, b.portfolio, " | ");
    }
    if forall k :: 0 <= k < 5 ==> !Shown(cs[k]) {
      FilterNone(cs, Shown);
    }
  }

  // ---------------------------------------------------------------------
  // Summary

  /** `summary_meta`: the target's, else the master's. */
  function SummaryMeta(m: map<string, Summary>, target: string): Option<Summary> {
    if target in m then Some(m[target])
    else if Master in m then Some(m[Master])
    else None
  }

  function SummarySection(m: map<string, Summary>, target: string): string {
    match SummaryMeta(m, target)
    case None => ""
    case Some(s) => "## " + s.title + "\n\n" + s.summary + "\n\n" + "---\n\n"
  }

  /** The section is omitted exactly when neither the target nor the master has
      metadata; otherwise it opens with the title of the target's metadata, or of the
      master's when the target has none, and ends with the separator. */
  lemma SummaryFallback(m: map<string, Summary>, target: string)
    ensures SummarySection(m, target) == "" <==> target !in m && Master !in m
    ensures target in m ==> SummarySection(m, target) == "## " + m[target].title + "\n\n" + m[target].summary + "\n\n---\n\n"
    ensures target !in m && Master in m ==>
      SummarySection(m, target) == "## " + m[Master].title + "\n\n" + m[Master].summary + "\n\n---\n\n"
  {
    if SummaryMeta(m, target).Some? {
      var s := SummaryMeta(m, target).value;
      assert |SummarySection(m, target)| >= 3;
    }
  }

  // ---------------------------------------------------------------------
  // Experience

  /** The contents a job's slots yield, in slot order. */
  function Yielded(slots: seq<Slot>, target: string): (r: seq<string>)
    ensures |r| <= |slots|
    ensures forall k :: 0 <= k < |r| ==> r[k] != ""
  {
    if slots == [] then []
    else
      var c := GetVariantContent(slots[|slots| - 1], target);
      Yielded(slots[..|slots| - 1], target) + (if Truthy(c) then [c.value] else [])
  }

  /** One `- content` line per content. */
  function Bulleted(cs: seq<string>): string {
    if cs == [] then "" else Bulleted(cs[..|cs| - 1]) + "- " + cs[|cs| - 1] + "\n"
  }

  /** `job_content` */
  function JobBody(slots: seq<Slot>, target: string): string {
    Bulleted(Yielded(slots, target))
  }

  function JobHeading(job: Job): string {
    "### " + job.company + " — " + job.role + "\n" + "*" + job.dates + " | " + job.location + "*\n\n"
  }

  function JobSection(job: Job, target: string): string {
    var body := JobBody(job.slots, target);
    if body == "" then "" else JobHeading(job) + body + "\n"
  }

  function Experience(jobs: seq<Job>, target: string): string {
    if jobs == [] then "" else Experience(jobs[..|jobs| - 1], target) + JobSection(jobs[|jobs| - 1], target)
  }

  /** A slot yields content exactly when its selected variant has truthy content. */
  lemma {:induction false} YieldedEmpty(slots: seq<Slot>, target: string)
    ensures Yielded(slots, target) == [] <==> forall k :: 0 <= k < |slots| ==> !Truthy(GetVariantContent(slots[k], target))
    decreases |slots|
  {
    if slots != [] {
      var pre := slots[..|slots| - 1];
      YieldedEmpty(pre, target);
      assert forall k :: 0 <= k < |pre| ==> pre[k] == slots[k];
    }
  }

  lemma {:induction false} BulletedEmpty(cs: seq<string>)
    ensures Bulleted(cs) == "" <==> cs == []
  {
    if cs != [] {
      assert |Bulleted(cs)| >= 3;
    }
  }

  /** A job's section is written exactly when one of its slots yields content, and it
      is then the heading, one `- content` line per yielding slot in slot order, and
      a blank line. */
  lemma JobSectionIff(job: Job, target: string)
    ensures JobSection(job, target) != "" <==>
      exists k :: 0 <= k < |job.slots| && Truthy(GetVariantContent(job.slots[k], target))
    ensures JobSection(job, target) != "" ==>
      JobSection(job, target) == JobHeading(job) + Bulleted(Yielded(job.slots, target)) + "\n"
  {
    YieldedEmpty(job.slots, target);
    BulletedEmpty(Yielded(job.slots, target));
  }

  /** Adding one job adds its section, on its own, after the others. */
  lemma ExperienceAppend(jobs: seq<Job>, job: Job, target: string)
    ensures Experience(jobs + [job], target) == Experience(jobs, target) + JobSection(job, target)
  {
    assert (jobs + [job])[..|jobs|] == jobs;
  }

  // ---------------------------------------------------------------------
  // Education

  predicate NonEmpty(s: string) {
    s != ""
  }

  /** `' | '.join(details)` */
  function EduDetails(e: Edu): string {
    Join(Filter([e.area, e.location], NonEmpty), " | ")
  }

  function EduEntry(e: Edu): string {
    "**" + e.institution + "**\n" + EduDetails(e) + "\n\n"
  }

  function EduLines(es: seq<Edu>): string {
    if es == [] then "" else EduLines(es[..|es| - 1]) + EduEntry(es[|es| - 1])
  }

  function EducationSection(es: seq<Edu>): string {
    if es == [] then "" else "## EDUCATION\n\n" + EduLines(es)
  }

  /** The details line holds the degree and the location that are non-empty, in that
      order, separated by " | ". */
  lemma EduDetailsFacts(e: Edu)
    ensures e.area != "" && e.location != "" ==> EduDetails(e) == e.area + " | " + e.location
    ensures e.area != "" && e.location == "" ==> EduDetails(e) == e.area
    ensures e.area == "" && e.location != "" ==> EduDetails(e) == e.location
    ensures e.area == "" && e.location == "" ==> EduDetails(e) == ""
  {
    var xs := [e.area, e.location];
    assert xs[..1] == [e.area] && xs[..1][..0] == [];
    assert Filter(xs, NonEmpty) == Filter([e.area], NonEmpty) + (if e.location != "" then [e.location] else []);
    assert Filter([e.area], NonEmpty) == if e.area != "" then [e.area] else [];
    if e.area != "" && e.location != "" {
      assert Filter(xs, NonEmpty) == xs;
      assert xs[1..] == [e.location];
      assert Join(xs[1..], " | ") == e.location;
    }
  }

  // ---------------------------------------------------------------------
  // Skills

  function SkillEntry(slot: Slot, target: string): string {
    var c := GetVariantContent(slot, target);
    if !Truthy(c) then ""
    else (if Truthy(slot.header) then "**" + slot.header.value + "**: " else "") + c.value + "\n\n"
  }

  function SkillLines(slots: seq<Slot>, target: string): string {
    if slots == [] then "" else SkillLines(slots[..|slots| - 1], target) + SkillEntry(slots[|slots| - 1], target)
  }

  function SkillsSection(slots: seq<Slot>, target: string): string {
    if slots == [] then "" else "## SKILLS\n\n" + SkillLines(slots, target)
  }

  /** A skill slot without content is skipped; one with content is written with its
      header in bold before it when the header is truthy. */
  lemma SkillEntryFacts(slot: Slot, target: string)
    ensures SkillEntry(slot, target) == "" <==> !Truthy(GetVariantContent(slot, target))
    ensures Truthy(GetVariantContent(slot, target)) && Truthy(slot.header) ==>
      SkillEntry(slot, target) == "**" + slot.header.value + "**: " + GetVariantContent(slot, target).value + "\n\n"
    ensures Truthy(GetVariantContent(slot, target)) && !Truthy(slot.header) ==>
      SkillEntry(slot, target) == GetVariantContent(slot, target).value + "\n\n"
  {
    if Truthy(GetVariantContent(slot, target)) {
      assert |SkillEntry(slot, target)| >= 2;
    }
  }

  // ---------------------------------------------------------------------
  // The whole résumé

  function Resume(data: Record, target: string): string {
    HeaderSection(data.basics) + SummarySection(data.summaries, target) + "## EXPERIENCE\n\n"
      + Experience(data.work, target) + EducationSection(data.education) + SkillsSection(data.skills, target)
  }

  /** The education and skills headings are dropped exactly when those lists are
      empty; the experience heading is always there. */
  lemma ResumeSections(data: Record, target: string)
    ensures EducationSection(data.education) == "" <==> data.education == []
    ensures SkillsSection(data.skills, target) == "" <==> data.skills == []
  {
    if data.education != [] {
      assert |EducationSection(data.education)| >= 1;
    }
    if data.skills != [] {
      assert |SkillsSection(data.skills, target)| >= 1;
    }
  }

  // ---------------------------------------------------------------------
  // `build_resume` as the source writes it

  /** The inner loop: `job_content`. */
  method JobContent(slots: seq<Slot>, target: string) returns (jobContent: string)
    ensures jobContent == JobBody(slots, target)
  {
    jobContent := "";
    var i := 0;
    while i < |slots|
      invariant 0 <= i <= |slots|
      invariant jobContent == Bulleted(Yielded(slots[..i], target))
    {
      assert slots[..i + 1][..i] == slots[..i] && slots[..i + 1][i] == slots[i];
      var content := GetVariantContent(slots[i], target);
      ghost var y := Yielded(slots[..i], target);
      if Truthy(content) {
        assert Yielded(slots[..i + 1], target) == y + [content.value];
        assert (y + [content.value])[..|y|] == y;
        jobContent := jobContent + "- " + content.value + "\n";
      } else {
        assert Yielded(slots[..i + 1], target) == y;
      }
      i := i + 1;
    }
    assert slots[..i] == slots;
  }

  /** One job of the experience loop: its heading and bullets, or nothing. */
  method WriteJob(job: Job, target: string) returns (section: string)
    ensures section == JobSection(job, target)
  {
    var jobContent := JobContent(job.slots, target);
    section := "";
    if jobContent != "" {
      section := "### " + job.company + " — " + job.role + "\n";
      section := section + "*" + job.dates + " | " + job.location + "*\n\n";
      section := section + jobContent + "\n";
    }
  }

  /** The experience loop, appending to `md`. */
  method AppendExperience(md0: string, jobs: seq<Job>, target: string) returns (md: string)
    ensures md == md0 + Experience(jobs, target)
  {
    md := md0;
    var i := 0;
    while i < |jobs|
      invariant 0 <= i <= |jobs|
      invariant md == md0 + Experience(jobs[..i], target)
    {
      var job := jobs[i];
      ExperienceStep(md0, jobs, i, target);
      var section := WriteJob(job, target);
      md := md + section;
      i := i + 1;
    }
    assert jobs[..i] == jobs;
  }

  lemma ExperienceStep(md0: string, jobs: seq<Job>, i: nat, target: string)
    requires i < |jobs|
    ensures md0 + Experience(jobs[..i + 1], target) == md0 + Experience(jobs[..i], target) + JobSection(jobs[i], target)
  {
    assert jobs[..i + 1] == jobs[..i] + [jobs[i]];
    ExperienceAppend(jobs[..i], jobs[i], target);
    AppendAssoc(md0, Experience(jobs[..i], target), JobSection(jobs[i], target));
  }

  /** The education loop. */
  method AppendEducation(md0: string, es: seq<Edu>) returns (md: string)
    ensures md == md0 + EducationSection(es)
  {
    md := md0;
    if es == [] {
      return;
    }
    md := md + "## EDUCATION\n\n";
    ghost var start := md;
    var i := 0;
    while i < |es|
      invariant 0 <= i <= |es|
      invariant md == start + EduLines(es[..i])
    {
      assert es[..i + 1][..i] == es[..i] && es[..i + 1][i] == es[i];
      var e := es[i];
      var details := Filter([e.area, e.location], NonEmpty);
      var entry := "**" + e.institution + "**\n" + Join(details, " | ") + "\n\n";
      assert entry == EduEntry(e);
      AppendAssoc(start, EduLines(es[..i]), entry);
      md := md + entry;
      i := i + 1;
    }
    assert es[..i] == es;
    AppendAssoc(md0, "## EDUCATION\n\n", EduLines(es));
  }

  /** The skills loop. */
  method AppendSkills(md0: string, slots: seq<Slot>, target: string) returns (md: string)
    ensures md == md0 + SkillsSection(slots, target)
  {
    md := md0;
    if slots == [] {
      return;
    }
    md := md + "## SKILLS\n\n";
    ghost var start := md;
    var i := 0;
    while i < |slots|
      invariant 0 <= i <= |slots|
      invariant md == start + SkillLines(slots[..i], target)
    {
      assert slots[..i + 1][..i] == slots[..i] && slots[..i + 1][i] == slots[i];
      var slot := slots[i];
      var content := GetVariantContent(slot, target);
      var entry := "";
      if Truthy(content) {
        var prefix := if Truthy(slot.header) then "**" + slot.header.value + "**: " else "";
        entry := prefix + content.value + "\n\n";
      }
      assert entry == SkillEntry(slot, target);
      AppendAssoc(start, SkillLines(slots[..i], target), entry);
      md := md + entry;
      i := i + 1;
    }
    assert slots[..i] == slots;
    AppendAssoc(md0, "## SKILLS\n\n", SkillLines(slots, target));
  }

  /** `build_resume`: the Markdown it writes to `Resume_<target>.md`. */
  method Build(data: Record, target: string) returns (md: string)
    ensures md == Resume(data, target)
  {
    var basics := data.basics;
    var contactLine := Join(Filter(Contacts(basics), Shown), " | ");
    md := "# " + basics.name + "\n" + contactLine + "\n\n";
    var summaryMeta := if target in data.summaries then Some(data.summaries[target]) else None;
    if summaryMeta.None? {
      summaryMeta := if Master in data.summaries then Some(data.summaries[Master]) else None;
    }
    var summary := "";
    if summaryMeta.Some? {
      summary := "## " + summaryMeta.value.title + "\n\n" + summaryMeta.value.summary + "\n\n" + "---\n\n";
    }
    assert summary == SummarySection(data.summaries, target);
    md := md + summary;
    md := md + "## EXPERIENCE\n\n";
    md := AppendExperience(md, data.work, target);
    md := AppendEducation(md, data.education);
    md := AppendSkills(md, data.skills, target);
  }
}
