/**
 * The technology catalogue (src/constants/techProjectMapping.js): every
 * tag used by a project, with the projects that use it and a description,
 * icon, category and proficiency for the tag.
 */
module TechMapping {
  import opened JsValues
  import opened Projects

  datatype TechInfo = TechInfo(description: string, icon: string, category: string, proficiency: int)

  /** An entry of the catalogue: its metadata spread next to its project list. */
  datatype TechEntry = TechEntry(projects: seq<ProjectRef>, info: TechInfo)

  /** The metadata the source lists for particular tags. */
  function KnownTech(tag: string): Option<TechInfo> {
    match tag
    case "Jenkins" => Some(TechInfo("CI/CD automation server", "🏗️", "DevOps", 72))
    case "Ansible" => Some(TechInfo("Infrastructure automation", "🤖", "DevOps", 72))
    case "Docker" => Some(TechInfo("Container platform", "🐳", "DevOps", 70))
    case "AWS EC2" => Some(TechInfo("Cloud compute service", "☁️", "Cloud", 75))
    case "CI/CD" => Some(TechInfo("Continuous integration/deployment", "🔄", "DevOps", 75))
    case "DevOps" => Some(TechInfo("Development operations practices", "⚙️", "DevOps", 75))
    case "React Native" => Some(TechInfo("Cross-platform mobile framework", "⚛️", "Mobile", 80))
    case "Android SDK" => Some(TechInfo("Android development toolkit", "📱", "Mobile", 85))
    case "Java" => Some(TechInfo("Object-oriented programming", "☕", "Languages", 90))
    case "MongoDB" => Some(TechInfo("NoSQL document database", "🍃", "Database", 80))
    case "Firebase" => Some(TechInfo("Backend as a service", "🔥", "Backend", 78))
    case "Flask" => Some(TechInfo("Python web framework", "🌶️", "Backend", 82))
    case "Python" => Some(TechInfo("High-level programming language", "🐍", "Languages", 88))
    case "AI/ML" => Some(TechInfo("Artificial intelligence & machine learning", "🤖", "AI", 82))
    case "LLM API" => Some(TechInfo("Large language model APIs", "🧠", "AI", 80))
    case "Streamlit" => Some(TechInfo("Data app framework", "🎈", "Frameworks", 85))
    case "AES/RSA" => Some(TechInfo("Encryption algorithms", "🔐", "Security", 75))
    case "Huffman Compression" => Some(TechInfo("Lossless compression algorithm", "📦", "Algorithms", 78))
    case "Git & GitHub" => Some(TechInfo("Version control", "📦", "Tools", 88))
    case "Linux" => Some(TechInfo("Operating system", "🐧", "Tools", 80))
    case "AWS Cloud" => Some(TechInfo("Cloud computing platform", "☁️", "Cloud", 75))
    case "SQL" => Some(TechInfo("Relational database query language", "📊", "Database", 85))
    case _ => None
  }

  /** The metadata given to a tag without an entry of its own. */
  function DefaultInfo(tag: string): TechInfo {
    TechInfo(tag + " technology", "🔧", "Other", 70)
  }

  /** `techInfo[tag] || { ...default }`. */
  function InfoFor(tag: string): TechInfo {
    match KnownTech(tag)
    case Some(info) => info
    case None => DefaultInfo(tag)
  }

  /**
   * `createTechProjectMapping`: one entry per tag that occurs in some
   * project. Its project list has one summary per occurrence, in project
   * order, and its metadata is that of the tag, fixed when the entry is
   * first made.
   */
  method CreateTechProjectMapping(projects: seq<Project>) returns (techMap: map<string, TechEntry>)
    ensures techMap.Keys == AllTags(projects)
    ensures forall tag :: tag in techMap ==> techMap[tag].projects == Occurrences(projects, tag)
    ensures forall tag :: tag in techMap ==> techMap[tag].info == InfoFor(tag)
  {
    techMap := map[];
    var i := 0;
    while i < |projects|
      invariant i <= |projects|
      invariant techMap.Keys == AllTags(projects[..i])
      invariant forall tag :: tag in techMap ==> techMap[tag] == EntryAfter(projects[..i], tag, InfoFor)
    {
      techMap := AddProjectTags(techMap, projects[..i], projects[i]);
      ProjectStep(projects, i, techMap, InfoFor);
      i := i + 1;
    }
    assert projects[..i] == projects;
  }

  /**
   * The inner loop over one project's tags: each tag gets its entry on
   * first sight and then the project's summary.
   */
  method AddProjectTags(techMap: map<string, TechEntry>, ghost done: seq<Project>, project: Project)
    returns (result: map<string, TechEntry>)
    requires techMap.Keys == AllTags(done)
    requires forall tag :: tag in techMap ==> techMap[tag] == EntryAfter(done, tag, InfoFor)
    ensures result.Keys == AllTags(done) + TagsBefore(project.tags, |project.tags|)
    ensures forall tag :: tag in result ==> result[tag] == EntryWithin(done, project, |project.tags|, tag, InfoFor)
  {
    result := techMap;
    var j := 0;
    ProjectStart(done, project, result, InfoFor);
    while j < |project.tags|
      invariant j <= |project.tags|
      invariant result.Keys == AllTags(done) + TagsBefore(project.tags, j)
      invariant forall tag :: tag in result ==> result[tag] == EntryWithin(done, project, j, tag, InfoFor)
    {
      var tag := project.tags[j];
      ghost var before := result;
      var entry: TechEntry;
      if tag in result {
        entry := result[tag];
      } else {
        entry := TechEntry([], InfoFor(tag));
      }
      result := result[tag := TechEntry(entry.projects + [RefOf(project)], entry.info)];
      TagStep(done, project, j, InfoFor, before);
      j := j + 1;
    }
  }

  /** The entry of `tag` once the projects `done` have been visited, with metadata `meta`. */
  function EntryAfter(done: seq<Project>, tag: string, meta: string -> TechInfo): TechEntry {
    TechEntry(Occurrences(done, tag), meta(tag))
  }

  /** The entry of `tag` once `done` and the first `j` tags of `project` have been visited. */
  function EntryWithin(done: seq<Project>, project: Project, j: nat, tag: string, meta: string -> TechInfo): TechEntry
    requires j <= |project.tags|
  {
    TechEntry(Occurrences(done, tag) + RefsFor(project, project.tags[..j], tag), meta(tag))
  }

  /** Before any of a project's tags, the entries are those after the projects before it. */
  lemma ProjectStart(done: seq<Project>, project: Project, m: map<string, TechEntry>, meta: string -> TechInfo)
    requires m.Keys == AllTags(done)
    requires forall t :: t in m ==> m[t] == EntryAfter(done, t, meta)
    ensures m.Keys == AllTags(done) + TagsBefore(project.tags, 0)
    ensures forall t :: t in m ==> m[t] == EntryWithin(done, project, 0, t, meta)
  {
    assert TagsBefore(project.tags, 0) == {};
    assert project.tags[..0] == [];
  }

  /** Visiting one more tag occurrence: create the entry if it is new, then push the project. */
  lemma TagStep(done: seq<Project>, project: Project, j: nat, meta: string -> TechInfo, m: map<string, TechEntry>)
    requires j < |project.tags|
    requires m.Keys == AllTags(done) + TagsBefore(project.tags, j)
    requires forall t :: t in m ==> m[t] == EntryWithin(done, project, j, t, meta)
    ensures var tag := project.tags[j];
      var e := if tag in m then m[tag] else TechEntry([], meta(tag));
      var m' := m[tag := TechEntry(e.projects + [RefOf(project)], e.info)];
      && m'.Keys == AllTags(done) + TagsBefore(project.tags, j + 1)
      && forall t :: t in m' ==> m'[t] == EntryWithin(done, project, j + 1, t, meta)
  {
    var tag := project.tags[j];
    var e := if tag in m then m[tag] else TechEntry([], meta(tag));
    var m' := m[tag := TechEntry(e.projects + [RefOf(project)], e.info)];
    if tag !in m {
      OccurrencesAbsent(done, tag);
      RefsForAbsent(project, project.tags[..j], tag);
    }
    assert e == EntryWithin(done, project, j, tag, meta);
    forall t | t in m'
      ensures m'[t] == EntryWithin(done, project, j + 1, t, meta)
    {
      RefsForSnoc(project, project.tags, j, t);
      if t != tag {
        assert m'[t] == m[t];
      }
    }
    TagsBeforeSnoc(project.tags, j);
  }

  /** Finishing a project's tags is visiting one more project. */
  lemma ProjectStep(projects: seq<Project>, i: nat, m: map<string, TechEntry>, meta: string -> TechInfo)
    requires i < |projects|
    requires m.Keys == AllTags(projects[..i]) + TagsBefore(projects[i].tags, |projects[i].tags|)
    requires forall t :: t in m ==> m[t] == EntryWithin(projects[..i], projects[i], |projects[i].tags|, t, meta)
    ensures m.Keys == AllTags(projects[..i + 1])
    ensures forall t :: t in m ==> m[t] == EntryAfter(projects[..i + 1], t, meta)
  {
    var project := projects[i];
    assert projects[..i + 1] == projects[..i] + [project];
    assert projects[..i + 1][..i] == projects[..i];
    assert project.tags[..|project.tags|] == project.tags;
    AllTagsSnoc(projects[..i], project);
  }

  /**
   * Every tag's proficiency lies between 70 and 90, and a tag without an
   * entry of its own is filed under "Other" at 70 with a description built
   * from its name.
   */
  lemma InfoForRange(tag: string)
    ensures 70 <= InfoFor(tag).proficiency <= 90
    ensures KnownTech(tag).Some? ==> InfoFor(tag) == KnownTech(tag).value
    ensures KnownTech(tag).None? ==>
      InfoFor(tag).category == "Other" && InfoFor(tag).proficiency == 70 && InfoFor(tag).description == tag + " technology"
  {

  }

  /**
   * An entry lists as many projects as there are occurrences of its tag,
   * and never an empty list, so every entry is reached from some project.
   */
  lemma EntryCounts(projects: seq<Project>, techMap: map<string, TechEntry>, tag: string)
    requires techMap.Keys == AllTags(projects)
    requires forall t :: t in techMap ==> techMap[t].projects == Occurrences(projects, t)
    requires tag in techMap
    ensures |techMap[tag].projects| == TagCount(projects, tag) > 0
  {
    OccurrencesCount(projects, tag);
    TagCountPositive(projects, tag);
  }

  /** A tag that occurs somewhere occurs at least once by count. */
  lemma {:induction false} TagCountPositive(ps: seq<Project>, tag: string)
    requires tag in AllTags(ps)
    ensures TagCount(ps, tag) > 0
  {
    var init, p := ps[..|ps| - 1], ps[|ps| - 1];
    assert ps == init + [p];
    AllTagsSnoc(init, p);
    if tag in AllTags(init) {
      TagCountPositive(init, tag);
    } else {
      var j :| 0 <= j < |p.tags| && p.tags[j] == tag;
      assert tag in multiset(p.tags);
    }
  }
}
