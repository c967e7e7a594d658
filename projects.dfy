/**
 * The shape of the portfolio's `projects` list (src/constants/index.js) and
 * what grouping it by tag must produce. Both tag groupings of the site,
 * `buildProjectMapping` and `createTechProjectMapping`, are proved against
 * the functions of this module.
 */
module Projects {

  datatype Project = Project(id: int, title: string, image: string, tags: seq<string>)

  /** The `{ id, title, image }` summary pushed for a project. */
  datatype ProjectRef = ProjectRef(id: int, title: string, image: string)

  function RefOf(p: Project): ProjectRef {
    ProjectRef(p.id, p.title, p.image)
  }

  /** Every tag that occurs in some project. */
  function AllTags(ps: seq<Project>): set<string>
  {
    set k, j | 0 <= k < |ps| && 0 <= j < |ps[k].tags| :: ps[k].tags[j]
  }

  /** One summary of `p` for every occurrence of `tag` in `tags`, in order. */
  function RefsFor(p: Project, tags: seq<string>, tag: string): seq<ProjectRef>
  {
    if tags == [] then []
    else RefsFor(p, tags[..|tags| - 1], tag) + (if tags[|tags| - 1] == tag then [RefOf(p)] else [])
  }

  /** One summary per (project, tag) occurrence of `tag`, in project order. */
  function Occurrences(ps: seq<Project>, tag: string): seq<ProjectRef>
  {
    if ps == [] then []
    else Occurrences(ps[..|ps| - 1], tag) + RefsFor(ps[|ps| - 1], ps[|ps| - 1].tags, tag)
  }

  /** How many times `tag` occurs across all projects' tag lists. */
  function TagCount(ps: seq<Project>, tag: string): nat
  {
    if ps == [] then 0 else TagCount(ps[..|ps| - 1], tag) + multiset(ps[|ps| - 1].tags)[tag]
  }

  /** The tags among the first `j` of a tag list. */
  function TagsBefore(tags: seq<string>, j: nat): set<string>
    requires j <= |tags|
  {
    set k | 0 <= k < j :: tags[k]
  }

  lemma TagsBeforeSnoc(tags: seq<string>, j: nat)
    requires j < |tags|
    ensures TagsBefore(tags, j + 1) == TagsBefore(tags, j) + {tags[j]}
  {
  }

  lemma AllTagsSnoc(ps: seq<Project>, p: Project)
    ensures AllTags(ps + [p]) == AllTags(ps) + TagsBefore(p.tags, |p.tags|)
  {
    var qs := ps + [p];
    forall t | t in AllTags(qs) ensures t in AllTags(ps) + TagsBefore(p.tags, |p.tags|) {
      var k, j :| 0 <= k < |qs| && 0 <= j < |qs[k].tags| && qs[k].tags[j] == t;
      if k < |ps| { assert ps[k].tags[j] == t; }
    }
    forall t | t in AllTags(ps) ensures t in AllTags(qs) {
      var k, j :| 0 <= k < |ps| && 0 <= j < |ps[k].tags| && ps[k].tags[j] == t;
      assert qs[k].tags[j] == t;
    }
    forall j | 0 <= j < |p.tags| ensures p.tags[j] in AllTags(qs) {
      assert qs[|ps|].tags[j] == p.tags[j];
    }
  }

  /** Taking one more tag of the list adds its summary when it is `tag`. */
  lemma RefsForSnoc(p: Project, tags: seq<string>, j: nat, tag: string)
    requires j < |tags|
    ensures RefsFor(p, tags[..j + 1], tag) == RefsFor(p, tags[..j], tag) + (if tags[j] == tag then [RefOf(p)] else [])
  {
    assert tags[..j + 1][..j] == tags[..j];
  }

  lemma {:induction false} RefsForAbsent(p: Project, tags: seq<string>, tag: string)
    requires tag !in tags
    ensures RefsFor(p, tags, tag) == []
  {
    if tags != [] {
      RefsForAbsent(p, tags[..|tags| - 1], tag);
    }
  }

  /** A tag that occurs nowhere has no summaries. */
  lemma {:induction false} OccurrencesAbsent(ps: seq<Project>, tag: string)
    requires tag !in AllTags(ps)
    ensures Occurrences(ps, tag) == []
  {
    if ps != [] {
      var init, p := ps[..|ps| - 1], ps[|ps| - 1];
      assert ps == init + [p];
      AllTagsSnoc(init, p);
      OccurrencesAbsent(init, tag);
      RefsForAbsent(p, p.tags, tag);
    }
  }

  /** The summaries of one project are as many as the occurrences of the tag in it. */
  lemma {:induction false} RefsForCount(p: Project, tags: seq<string>, tag: string)
    ensures |RefsFor(p, tags, tag)| == multiset(tags)[tag]
    ensures forall r :: r in RefsFor(p, tags, tag) ==> r == RefOf(p)
  {
    if tags != [] {
      var init := tags[..|tags| - 1];
      assert tags == init + [tags[|tags| - 1]];
      RefsForCount(p, init, tag);
    }
  }

  /**
   * The list grouped under a tag has one entry per occurrence of the tag,
   * and each entry summarises a project that carries the tag.
   */
  lemma {:induction false} OccurrencesCount(ps: seq<Project>, tag: string)
    ensures |Occurrences(ps, tag)| == TagCount(ps, tag)
    ensures forall r :: r in Occurrences(ps, tag) ==>
      exists k :: 0 <= k < |ps| && r == RefOf(ps[k]) && tag in ps[k].tags
  {
    if ps != [] {
      var init, p := ps[..|ps| - 1], ps[|ps| - 1];
      OccurrencesCount(init, tag);
      RefsForCount(p, p.tags, tag);
      forall r | r in Occurrences(ps, tag)
        ensures exists k :: 0 <= k < |ps| && r == RefOf(ps[k]) && tag in ps[k].tags
      {
        if r in Occurrences(init, tag) {
          var k :| 0 <= k < |init| && r == RefOf(init[k]) && tag in init[k].tags;
          assert ps[k] == init[k];
        } else {
          assert r in RefsFor(p, p.tags, tag);
          assert multiset(p.tags)[tag] > 0;
          assert ps[|ps| - 1] == p;
        }
      }
    }
  }
}
