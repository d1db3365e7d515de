/** The résumé projection: from the current language and the two per-language
    CVs to the rendered document, five tagged sections in a fixed order, each
    list projected item by item in source order. Markup is abstracted to a
    tree of sections holding items; a thrown exception is a `Failure`. */
module ResumeContent {
  import opened Wrappers
  import opened Seqs
  import opened LanguageContext

  // ---------------------------------------------------------------- CV data

  datatype Basics = Basics(summary: string)

  /** A job; a missing (or empty) date means "ongoing". */
  datatype Job = Job(name: string, position: string, startDate: Option<string>,
                     endDate: Option<string>, summary: string)

  datatype EducationEntry = EducationEntry(institution: string, area: string)

  datatype Project = Project(name: string, url: string, description: string,
                             isActive: bool, highlights: seq<string>)

  datatype Skill = Skill(name: string)

  datatype CV = CV(basics: Basics, work: seq<Job>, education: seq<EducationEntry>,
                   projects: seq<Project>, skills: seq<Skill>)

  // ----------------------------------------------------------- section titles

  /** The five sections, identified by their `data-section` tag. */
  datatype SectionTag = About | Experience | Education | Projects | Skills

  /** The value of the `data-section` attribute. */
  function TagName(t: SectionTag): string
  {
    match t
    case About => "about"
    case Experience => "experience"
    case Education => "education"
    case Projects => "projects"
    case Skills => "skills"
  }

  /** The order the sections are rendered in. */
  const SectionOrder: seq<SectionTag> := [About, Experience, Education, Projects, Skills]

  /** The section-title table, indexed by language code and section. */
  const SectionTitles: map<string, map<SectionTag, string>> := map[
    "en" := map[About := "About", Experience := "Work Experience", Education := "Education",
                Projects := "Projects", Skills := "Skills"],
    "es" := map[About := "Sobre mí", Experience := "Experiencia laboral", Education := "Educación",
                Projects := "Proyectos", Skills := "Habilidades"]
  ]

  /** The table has an entry for exactly the two supported codes, and each
      entry titles all five sections. */
  lemma SectionTitlesComplete()
    ensures forall code :: code in SectionTitles <==> IsCode(code)
    ensures forall code, t :: code in SectionTitles ==> t in SectionTitles[code]
  {
    forall code, t | code in SectionTitles
      ensures t in SectionTitles[code]
    {
      match t
      case About =>
      case Experience =>
      case Education =>
      case Projects =>
      case Skills =>
    }
  }

  // ------------------------------------------------------------- the document

  /** One rendered entry of a section. */
  datatype Item =
    | SummaryItem(text: string)
    | JobItem(company: string, position: string, years: string, summary: string)
    | EducationItem(institution: string, area: string)
    | ProjectItem(name: string, href: string, linkTitle: string, marker: Option<string>,
                  description: string, highlights: seq<string>)
    | SkillItem(name: string)

  /** A section; its heading is `None` when the title looked up is `undefined`. */
  datatype Section = Section(tag: SectionTag, title: Option<string>, items: seq<Item>)

  datatype Document = Document(sections: seq<Section>)

  /** Indexing `sectionTitles` with a language that is neither an own key of
      the table nor a name every object inherits yields `undefined`, and
      reading `.about` from it throws a `TypeError`. */
  datatype RenderError = UndefinedTitles(language: string)

  /** The property names every plain object inherits from `Object.prototype`.
      Indexing the title table with one of them yields a function (or the
      prototype itself) rather than `undefined`, so nothing throws, but that
      value has no `about`, `experience`, ... property. */
  const InheritedKeys: set<string> := {
    "constructor", "__proto__", "hasOwnProperty", "isPrototypeOf",
    "propertyIsEnumerable", "toString", "toLocaleString", "valueOf",
    "__defineGetter__", "__defineSetter__", "__lookupGetter__", "__lookupSetter__"
  }

  /** What `sectionTitles[language]` evaluates to. */
  datatype TitleLookup =
    | OwnEntry(titles: map<SectionTag, string>)
    | InheritedEntry
    | Undefined

  function LookupTitles(language: string): (r: TitleLookup)
    ensures r.OwnEntry? <==> IsCode(language)
    ensures r.OwnEntry? ==> r.titles == SectionTitles[language]
    ensures r.Undefined? <==> !IsCode(language) && language !in InheritedKeys
  {
    if language in SectionTitles then OwnEntry(SectionTitles[language])
    else if language in InheritedKeys then InheritedEntry
    else Undefined
  }

  /** `titles.<section>`: `undefined` (shown as an empty heading) unless the
      lookup found a table that has the section. */
  function TitleOf(lookup: TitleLookup, t: SectionTag): Option<string>
  {
    match lookup
    case OwnEntry(titles) => if t in titles then Some(titles[t]) else None
    case _ => None
  }

  /** The languages the component renders for without throwing. */
  predicate Renders(language: string)
  {
    IsCode(language) || language in InheritedKeys
  }

  /** The marker shown next to an active project. */
  const ActiveMarker: string := "•"

  // ------------------------------------------------------------- projection

  /** The CV shown for a language: the English one for `"en"`, the Spanish
      one for every other value. */
  function ActiveCv(language: string, cvEn: CV, cvEs: CV): CV
  {
    if language == "en" then cvEn else cvEs
  }

  /** The word shown for a missing date. */
  function PresentWord(language: string): string
  {
    if language == "en" then "Present" else "Actual"
  }

  /** `formatDate`: the localised "present" word for a null or empty date,
      otherwise the year `yearOf` reads from the date string. */
  function FormatDate(language: string, yearOf: string -> string, date: Option<string>): string
  {
    match date
    case Some(s) => if s == "" then PresentWord(language) else yearOf(s)
    case None => PresentWord(language)
  }

  /** The year range shown for a job. */
  function YearRange(language: string, yearOf: string -> string, job: Job): string
  {
    FormatDate(language, yearOf, job.startDate) + " - " + FormatDate(language, yearOf, job.endDate)
  }

  /** The link title of a project. */
  function ProjectLinkTitle(language: string, name: string): string
  {
    (if language == "en" then "View project " else "Ver el proyecto ") + name
  }

  function RenderJob(language: string, yearOf: string -> string, job: Job): Item
  {
    JobItem(job.name, job.position, YearRange(language, yearOf, job), job.summary)
  }

  function RenderEducation(edu: EducationEntry): Item
  {
    EducationItem(edu.institution, edu.area)
  }

  function RenderProject(language: string, project: Project): Item
  {
    ProjectItem(project.name, project.url, ProjectLinkTitle(language, project.name),
                if project.isActive then Some(ActiveMarker) else None,
                project.description, project.highlights)
  }

  function RenderSkill(skill: Skill): Item
  {
    SkillItem(skill.name)
  }

  /** The tags of a document's sections, in order. */
  function Tags(d: Document): (tags: seq<SectionTag>)
    ensures |tags| == |d.sections|
  {
    MapSeq((s: Section) => s.tag, d.sections)
  }

  /** The component: renders the five sections of the active CV under the
      titles looked up for the language. The year of a non-empty date string
      is left to `yearOf`. Rendering throws exactly when the title lookup
      yields `undefined`; otherwise the sections come in the fixed order,
      whatever the data, titled from the language's table for a supported
      code and untitled for an inherited property name. */
  function Render(language: string, cvEn: CV, cvEs: CV, yearOf: string -> string)
    : (r: Result<Document, RenderError>)
    ensures r.Success? <==> Renders(language)
    ensures r.Failure? ==> r.error == UndefinedTitles(language)
    ensures r.Success? ==> Tags(r.value) == SectionOrder
    ensures r.Success? && IsCode(language) ==> forall i :: 0 <= i < |r.value.sections| ==>
              r.value.sections[i].title == Some(SectionTitles[language][SectionOrder[i]])
    ensures r.Success? && !IsCode(language) ==> forall i :: 0 <= i < |r.value.sections| ==>
              r.value.sections[i].title.None?
  {
    var cv := ActiveCv(language, cvEn, cvEs);
    var lookup := LookupTitles(language);
    if lookup.Undefined? then Failure(UndefinedTitles(language))
    else
      SectionTitlesComplete();
      var d := Document([
        Section(About, TitleOf(lookup, About), [SummaryItem(cv.basics.summary)]),
        Section(Experience, TitleOf(lookup, Experience),
                MapSeq((job: Job) => RenderJob(language, yearOf, job), cv.work)),
        Section(Education, TitleOf(lookup, Education), MapSeq(RenderEducation, cv.education)),
        Section(Projects, TitleOf(lookup, Projects),
                MapSeq((p: Project) => RenderProject(language, p), cv.projects)),
        Section(Skills, TitleOf(lookup, Skills), MapSeq(RenderSkill, cv.skills))
      ]);
      assert Tags(d) == SectionOrder;
      Success(d)
  }

  /** The `data-section` attributes of a successful render, in order. */
  lemma RenderedTagNames(language: string, cvEn: CV, cvEs: CV, yearOf: string -> string)
    requires Renders(language)
    ensures var d := Render(language, cvEn, cvEs, yearOf).value;
            && |d.sections| == 5
            && [TagName(d.sections[0].tag), TagName(d.sections[1].tag), TagName(d.sections[2].tag),
                TagName(d.sections[3].tag), TagName(d.sections[4].tag)]
               == ["about", "experience", "education", "projects", "skills"]
  {
    var d := Render(language, cvEn, cvEs, yearOf).value;
    assert |Tags(d)| == |SectionOrder|;
    assert forall i :: 0 <= i < 5 ==> d.sections[i].tag == Tags(d)[i] == SectionOrder[i];
  }

  // --------------------------------------------------------------- read-back

  /** Where a section sits in the rendered document. */
  function Position(t: SectionTag): (i: nat)
    ensures i < |SectionOrder| && SectionOrder[i] == t
  {
    match t
    case About => 0
    case Experience => 1
    case Education => 2
    case Projects => 3
    case Skills => 4
  }

  /** The items of one section of a successful render. */
  function ItemsOf(language: string, cvEn: CV, cvEs: CV, yearOf: string -> string, t: SectionTag): seq<Item>
    requires Renders(language)
  {
    var d := Render(language, cvEn, cvEs, yearOf).value;
    assert |Tags(d)| == |SectionOrder|;
    d.sections[Position(t)].items
  }

  /** The part of a job a rendered entry shows besides its years. */
  datatype JobView = JobView(name: string, position: string, summary: string)

  function ReadJob(it: Item): Option<JobView>
  {
    match it
    case JobItem(company, position, _, summary) => Some(JobView(company, position, summary))
    case _ => None
  }

  function ReadEducation(it: Item): Option<EducationEntry>
  {
    match it
    case EducationItem(institution, area) => Some(EducationEntry(institution, area))
    case _ => None
  }

  /** A rendered project read back: the link target is the URL and the marker
      says whether the project is active. */
  function ReadProject(it: Item): Option<Project>
  {
    match it
    case ProjectItem(name, href, _, marker, description, highlights) =>
      Some(Project(name, href, description, marker.Some?, highlights))
    case _ => None
  }

  function ReadSkill(it: Item): Option<Skill>
  {
    match it
    case SkillItem(name) => Some(Skill(name))
    case _ => None
  }

  // ------------------------------------------------------------------ lemmas

  /** The rendered document depends on the English CV only for `"en"` and on
      the Spanish CV only for every other language. */
  lemma RenderIgnoresInactiveCv(language: string, cvEn: CV, cvEs: CV, other: CV, yearOf: string -> string)
    ensures language == "en" ==> Render(language, cvEn, cvEs, yearOf) == Render(language, cvEn, other, yearOf)
    ensures language != "en" ==> Render(language, cvEn, cvEs, yearOf) == Render(language, other, cvEs, yearOf)
  {
  }

  /** The about section holds exactly the active CV's summary. */
  lemma AboutShowsSummary(language: string, cvEn: CV, cvEs: CV, yearOf: string -> string)
    requires Renders(language)
    ensures ItemsOf(language, cvEn, cvEs, yearOf, About) == [SummaryItem(ActiveCv(language, cvEn, cvEs).basics.summary)]
    ensures language == "en" ==> ItemsOf(language, cvEn, cvEs, yearOf, About) == [SummaryItem(cvEn.basics.summary)]
    ensures language == "es" ==> ItemsOf(language, cvEn, cvEs, yearOf, About) == [SummaryItem(cvEs.basics.summary)]
  {
  }

  /** The experience section has one entry per job, in the CV's order; each
      shows the job's company, position and summary, and the range
      `formatDate(startDate) + " - " + formatDate(endDate)`. */
  lemma ExperienceFollowsWork(language: string, cvEn: CV, cvEs: CV, yearOf: string -> string)
    requires Renders(language)
    ensures var items := ItemsOf(language, cvEn, cvEs, yearOf, Experience);
            var work := ActiveCv(language, cvEn, cvEs).work;
            && |items| == |work|
            && forall k :: 0 <= k < |work| ==>
                 && ReadJob(items[k]) == Some(JobView(work[k].name, work[k].position, work[k].summary))
                 && items[k].years == FormatDate(language, yearOf, work[k].startDate) + " - "
                                      + FormatDate(language, yearOf, work[k].endDate)
  {
  }

  /** The education section is the CV's education list, entry for entry. */
  lemma EducationFollowsCv(language: string, cvEn: CV, cvEs: CV, yearOf: string -> string)
    requires Renders(language)
    ensures var items := ItemsOf(language, cvEn, cvEs, yearOf, Education);
            var education := ActiveCv(language, cvEn, cvEs).education;
            && |items| == |education|
            && forall k :: 0 <= k < |education| ==> ReadEducation(items[k]) == Some(education[k])
  {
  }

  /** The projects section is the CV's project list, entry for entry and with
      nothing lost: each entry links to the project's URL under the localised
      link title, carries the marker exactly when the project is active, and
      shows the highlights in order. */
  lemma ProjectsFollowCv(language: string, cvEn: CV, cvEs: CV, yearOf: string -> string)
    requires Renders(language)
    ensures var items := ItemsOf(language, cvEn, cvEs, yearOf, Projects);
            var projects := ActiveCv(language, cvEn, cvEs).projects;
            && |items| == |projects|
            && forall k :: 0 <= k < |projects| ==>
                 && ReadProject(items[k]) == Some(projects[k])
                 && items[k].href == projects[k].url
                 && items[k].linkTitle == ProjectLinkTitle(language, projects[k].name)
                 && (items[k].marker == Some(ActiveMarker) <==> projects[k].isActive)
                 && items[k].highlights == projects[k].highlights
  {
  }

  /** The skills section is the CV's skills list, entry for entry. */
  lemma SkillsFollowCv(language: string, cvEn: CV, cvEs: CV, yearOf: string -> string)
    requires Renders(language)
    ensures var items := ItemsOf(language, cvEn, cvEs, yearOf, Skills);
            var skills := ActiveCv(language, cvEn, cvEs).skills;
            && |items| == |skills|
            && forall k :: 0 <= k < |skills| ==> ReadSkill(items[k]) == Some(skills[k])
  {
  }

  /** A missing or empty date reads "Present" in English and "Actual" in
      Spanish; a non-empty date shows its year whatever the language. */
  lemma FormatDateCases(language: string, other: string, yearOf: string -> string, date: Option<string>)
    ensures date.None? || date == Some("") ==>
              FormatDate(language, yearOf, date) == (if language == "en" then "Present" else "Actual")
    ensures date.Some? && date.value != "" ==>
              FormatDate(language, yearOf, date) == FormatDate(other, yearOf, date) == yearOf(date.value)
  {
  }

  /** A job without a start date shows the "present" word on both sides of
      its range when it is ongoing. */
  lemma MissingStartDateShowsPresent(yearOf: string -> string, job: Job)
    requires job.startDate.None? && job.endDate.None?
    ensures YearRange("en", yearOf, job) == "Present - Present"
    ensures YearRange("es", yearOf, job) == "Actual - Actual"
  {
  }

  /** The link title names the project after a localised prefix, so the name
      can be read back from its end. */
  lemma ProjectLinkTitleNamesProject(language: string, name: string)
    ensures var title := ProjectLinkTitle(language, name);
            && |title| >= |name|
            && title[|title| - |name|..] == name
            && (language == "en" ==> title[..|title| - |name|] == "View project ")
            && (language != "en" ==> title[..|title| - |name|] == "Ver el proyecto ")
  {
    var title := ProjectLinkTitle(language, name);
    var prefix := if language == "en" then "View project " else "Ver el proyecto ";
    assert title == prefix + name;
    assert title[|prefix|..] == name;
    assert title[..|prefix|] == prefix;
  }

  /** A worked example: an ongoing job that started in 2019, rendered in
      English, shows "2019 - Present". */
  lemma OngoingJobExample(cvEs: CV, yearOf: string -> string)
    requires yearOf("2019-01-01") == "2019"
    ensures var job := Job("Acme", "Engineer", Some("2019-01-01"), None, "Built things");
            var cv := CV(Basics(""), [job], [], [], []);
            ItemsOf("en", cv, cvEs, yearOf, Experience) == [JobItem("Acme", "Engineer", "2019 - Present", "Built things")]
  {
    var job := Job("Acme", "Engineer", Some("2019-01-01"), None, "Built things");
    var cv := CV(Basics(""), [job], [], [], []);
    var items := ItemsOf("en", cv, cvEs, yearOf, Experience);
    ExperienceFollowsWork("en", cv, cvEs, yearOf);
    assert items[0] == RenderJob("en", yearOf, job);
    assert YearRange("en", yearOf, job) == "2019" + " - " + "Present" == "2019 - Present";
    assert items[0] == JobItem("Acme", "Engineer", "2019 - Present", "Built things");
    assert |items| == 1;
  }

  /** A worked example: an active project shows the marker and both of its
      highlights in order. */
  lemma ActiveProjectExample(cvEs: CV, yearOf: string -> string)
    ensures var p := Project("X", "http://x", "d", true, ["a", "b"]);
            var cv := CV(Basics(""), [], [], [p], []);
            var items := ItemsOf("en", cv, cvEs, yearOf, Projects);
            && |items| == 1
            && items[0].marker == Some(ActiveMarker)
            && items[0].highlights == ["a", "b"]
            && items[0].linkTitle == "View project X"
  {
  }

  // -------------------------------------------------------- stored language

  /** The stored value is not validated: a non-empty stored string other than
      a language code becomes the provider's language, and the component then
      fails on the missing title table. */
  lemma StoredUnknownCodeBreaksRender(cvEn: CV, cvEs: CV, yearOf: string -> string)
    ensures var p := Mount(Some(Browser(map[LanguageKey := "fr"], "")), None);
            && p.language == "fr"
            && Render(p.language, cvEn, cvEs, yearOf) == Failure(UndefinedTitles("fr"))
  {
    var window := Some(Browser(map[LanguageKey := "fr"], ""));
    assert StoredPreference(window) == Some("fr");
  }

  /** An inherited property name in storage does not throw: the provider
      starts with it, and the component renders the Spanish CV with all five
      headings empty. */
  lemma StoredInheritedKeyRendersUntitled(cvEn: CV, cvEs: CV, yearOf: string -> string)
    ensures var p := Mount(Some(Browser(map[LanguageKey := "constructor"], "")), None);
            var r := Render(p.language, cvEn, cvEs, yearOf);
            && p.language == "constructor"
            && r.Success?
            && |r.value.sections| == 5
            && (forall i :: 0 <= i < 5 ==> r.value.sections[i].title == None)
            && r.value.sections[0].items == [SummaryItem(cvEs.basics.summary)]
  {
    var window := Some(Browser(map[LanguageKey := "constructor"], ""));
    assert StoredPreference(window) == Some("constructor");
    var r := Render("constructor", cvEn, cvEs, yearOf);
    assert |Tags(r.value)| == |SectionOrder|;
    AboutShowsSummary("constructor", cvEn, cvEs, yearOf);
  }

  /** With the validated initial state, every session renders: whatever the
      browser's storage held and whatever the user did afterwards, the
      component finds a title table and every section has a heading. */
  lemma CheckedSessionAlwaysRenders(window: Option<Browser>, initialLanguage: Option<Language>,
                                    actions: seq<Action>, cvEn: CV, cvEs: CV,
                                    yearOf: string -> string)
    ensures var r := Render(Run(MountChecked(window, initialLanguage), actions).language, cvEn, cvEs, yearOf);
            && r.Success?
            && forall i :: 0 <= i < |r.value.sections| ==> r.value.sections[i].title.Some?
  {
    RunKeepsInvariant(MountChecked(window, initialLanguage), actions);
  }
}
