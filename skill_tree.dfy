/**
 * The skills tree of the node-web visualization and its helpers
 * (src/constants/node_web_data.js): the tag-to-projects grouping that fills
 * the leaves' project lists, the `nodeWebData` constant itself, pre-order
 * flattening and lookup by id.
 */
module SkillTree {
  import opened JsValues
  import opened Projects

  /**
   * A node of the tree. An absent `children` field behaves exactly like an
   * empty one everywhere in the site, so both are the empty sequence; the
   * same holds for `projects`. Icons, descriptions, tech-stack and feature
   * lists and proficiencies are display text and are not modelled.
   */
  datatype Node = Node(
    id: string,
    name: string,
    color: string,
    projects: seq<ProjectRef>,
    children: seq<Node>)

  // ---------------------------------------------------------------------
  // Pre-order, subtrees and ids

  /** The node followed by its children's subtrees, in array order. */
  function PreOrder(n: Node): seq<Node>
    decreases n, 1
  {
    [n] + PreOrderUpTo(n, |n.children|)
  }

  /** The pre-orders of the first `k` children of `n`, concatenated. */
  function PreOrderUpTo(n: Node, k: nat): seq<Node>
    requires k <= |n.children|
    decreases n, 0, k
  {
    if k == 0 then [] else PreOrderUpTo(n, k - 1) + PreOrder(n.children[k - 1])
  }

  /** The number of nodes of the tree rooted at `n`. */
  function Size(n: Node): nat
    decreases n, 1
  {
    1 + SizeUpTo(n, |n.children|)
  }

  function SizeUpTo(n: Node, k: nat): nat
    requires k <= |n.children|
    decreases n, 0, k
  {
    if k == 0 then 0 else SizeUpTo(n, k - 1) + Size(n.children[k - 1])
  }

  /** The nodes of the tree rooted at `n`. */
  function Subtrees(n: Node): set<Node>
    decreases n, 1
  {
    {n} + SubtreesUpTo(n, |n.children|)
  }

  function SubtreesUpTo(n: Node, k: nat): set<Node>
    requires k <= |n.children|
    decreases n, 0, k
  {
    if k == 0 then {} else SubtreesUpTo(n, k - 1) + Subtrees(n.children[k - 1])
  }

  function Ids(s: seq<Node>): (ids: seq<string>)
    ensures |ids| == |s| && forall k :: 0 <= k < |s| ==> ids[k] == s[k].id
  {
    seq(|s|, k requires 0 <= k < |s| => s[k].id)
  }

  lemma IdsAppend(a: seq<Node>, b: seq<Node>)
    ensures Ids(a + b) == Ids(a) + Ids(b)
  {
  }

  /** No two nodes of the tree share an id. */
  predicate DistinctIds(n: Node) {
    NoDup(Ids(PreOrder(n)))
  }

  /**
   * The flattening lists every node of the tree, and nothing else, as many
   * times as the tree holds it: its length is the tree's node count.
   */
  lemma {:induction false} PreOrderIsComplete(n: Node)
    ensures |PreOrder(n)| == Size(n)
    ensures forall m :: m in PreOrder(n) <==> m in Subtrees(n)
    decreases n, 1
  {
    PreOrderUpToIsComplete(n, |n.children|);
  }

  lemma {:induction false} PreOrderUpToIsComplete(n: Node, k: nat)
    requires k <= |n.children|
    ensures |PreOrderUpTo(n, k)| == SizeUpTo(n, k)
    ensures forall m :: m in PreOrderUpTo(n, k) <==> m in SubtreesUpTo(n, k)
    decreases n, 0, k
  {
    if k > 0 {
      PreOrderUpToIsComplete(n, k - 1);
      PreOrderIsComplete(n.children[k - 1]);
    }
  }

  /** A child of a node of the tree is a node of the tree. */
  lemma {:induction false} SubtreesClosed(root: Node, n: Node, c: Node)
    requires n in Subtrees(root) && c in n.children
    ensures c in Subtrees(root)
    decreases root
  {
    if n == root {
      var i :| 0 <= i < |n.children| && n.children[i] == c;
      SubtreesUpToMono(n, |n.children|, i, c);
    } else {
      var i := SubtreeOwner(root, |root.children|, n);
      SubtreesClosed(root.children[i], n, c);
      SubtreesUpToMono(root, |root.children|, i, c);
    }
  }

  lemma {:induction false} SubtreesUpToMono(n: Node, k: nat, i: nat, m: Node)
    requires i < k <= |n.children| && m in Subtrees(n.children[i])
    ensures m in SubtreesUpTo(n, k)
    decreases k
  {
    if i < k - 1 {
      SubtreesUpToMono(n, k - 1, i, m);
    }
  }

  /** Which of the first `k` children holds a proper descendant. */
  lemma {:induction false} SubtreeOwner(n: Node, k: nat, m: Node) returns (i: nat)
    requires k <= |n.children| && m in SubtreesUpTo(n, k)
    ensures i < k && m in Subtrees(n.children[i])
    decreases k
  {
    if m in Subtrees(n.children[k - 1]) {
      i := k - 1;
    } else {
      i := SubtreeOwner(n, k - 1, m);
    }
  }

  /** In a tree with distinct ids, a node is determined by its id. */
  lemma SameIdSameNode(root: Node, a: Node, b: Node)
    requires DistinctIds(root)
    requires a in Subtrees(root) && b in Subtrees(root) && a.id == b.id
    ensures a == b
  {
    PreOrderIsComplete(root);
    var s := PreOrder(root);
    var i :| 0 <= i < |s| && s[i] == a;
    var j :| 0 <= j < |s| && s[j] == b;
    assert Ids(s)[i] == Ids(s)[j];
  }

  // ---------------------------------------------------------------------
  // getAllNodes and findNodeById

  /** `traverse`: pushes `n` and then, recursively, each of its children. */
  method Traverse(n: Node, nodes: seq<Node>) returns (nodes': seq<Node>)
    ensures nodes' == nodes + PreOrder(n)
    decreases n
  {
    nodes' := nodes + [n];
    var i := 0;
    while i < |n.children|
      invariant i <= |n.children|
      invariant nodes' == nodes + [n] + PreOrderUpTo(n, i)
    {
      nodes' := Traverse(n.children[i], nodes');
      i := i + 1;
    }
  }

  /**
   * `getAllNodes`: every node of the tree exactly once, each before its
   * children, children in array order.
   */
  method GetAllNodes(root: Node) returns (nodes: seq<Node>)
    ensures nodes == PreOrder(root)
    ensures |nodes| == Size(root) && nodes[0] == root
    ensures forall m :: m in nodes <==> m in Subtrees(root)
  {
    nodes := Traverse(root, []);
    PreOrderIsComplete(root);
  }

  /** `Array.prototype.find` by id. */
  function Find(s: seq<Node>, id: string): (r: Option<Node>)
    ensures r == None <==> forall k :: 0 <= k < |s| ==> s[k].id != id
    ensures r.Some? ==> exists k :: 0 <= k < |s| && s[k] == r.value && r.value.id == id &&
                                     forall j :: 0 <= j < k ==> s[j].id != id
  {
    if s == [] then None
    else if s[0].id == id then Some(s[0])
    else
      var r := Find(s[1..], id);
      if r.Some? then
        var k :| 0 <= k < |s[1..]| && s[1..][k] == r.value && r.value.id == id &&
                 forall j :: 0 <= j < k ==> s[1..][j].id != id;
        assert s[k + 1] == r.value;
        r
      else r
  }

  /**
   * `findNodeById`: the first node in pre-order carrying `id`, or nothing
   * when no node does.
   */
  method FindNodeById(root: Node, id: string) returns (r: Option<Node>)
    ensures r == None <==> forall m :: m in Subtrees(root) ==> m.id != id
    ensures r.Some? ==> r.value in Subtrees(root) && r.value.id == id
    ensures r.Some? ==> exists k :: 0 <= k < |PreOrder(root)| && PreOrder(root)[k] == r.value &&
                                    forall j :: 0 <= j < k ==> PreOrder(root)[j].id != id
    ensures DistinctIds(root) ==> forall m :: m in Subtrees(root) && m.id == id ==> r == Some(m)
  {
    var all := GetAllNodes(root);
    r := Find(all, id);
    if r.Some? {
      forall m | m in Subtrees(root) && m.id == id ensures DistinctIds(root) ==> r == Some(m) {
        if DistinctIds(root) {
          SameIdSameNode(root, m, r.value);
        }
      }
    } else {
      forall m | m in Subtrees(root) ensures m.id != id {
        var k :| 0 <= k < |all| && all[k] == m;
      }
    }
  }

  // ---------------------------------------------------------------------
  // buildProjectMapping and the fallback lookups

  /**
   * `buildProjectMapping`: groups the projects by tag. Each occurrence of a
   * tag in a project's tag list appends that project's summary to the tag's
   * list, in project order.
   */
  method BuildProjectMapping(projects: seq<Project>) returns (techMap: map<string, seq<ProjectRef>>)
    ensures techMap.Keys == AllTags(projects)
    ensures forall tag :: tag in techMap ==> techMap[tag] == Occurrences(projects, tag)
  {
    techMap := map[];
    var i := 0;
    while i < |projects|
      invariant i <= |projects|
      invariant techMap.Keys == AllTags(projects[..i])
      invariant forall tag :: tag in techMap ==> techMap[tag] == Occurrences(projects[..i], tag)
    {
      techMap := GroupProjectTags(techMap, projects[..i], projects[i]);
      GroupedProject(projects, i, techMap);
      i := i + 1;
    }
    assert projects[..i] == projects;
  }

  /** The inner loop of `buildProjectMapping` over one project's tags. */
  method GroupProjectTags(techMap: map<string, seq<ProjectRef>>, ghost done: seq<Project>, project: Project)
    returns (result: map<string, seq<ProjectRef>>)
    requires techMap.Keys == AllTags(done)
    requires forall tag :: tag in techMap ==> techMap[tag] == Occurrences(done, tag)
    ensures result.Keys == AllTags(done) + TagsBefore(project.tags, |project.tags|)
    ensures forall tag :: tag in result ==>
      result[tag] == Occurrences(done, tag) + RefsFor(project, project.tags, tag)
  {
    result := techMap;
    var j := 0;
    while j < |project.tags|
      invariant j <= |project.tags|
      invariant GroupedUpTo(result, done, project, j)
    {
      var tag := project.tags[j];
      ghost var before := result;
      var group: seq<ProjectRef>;
      if tag in result {
        group := result[tag];
      } else {
        group := [];
      }
      result := result[tag := group + [RefOf(project)]];
      GroupedTag(done, project, j, before);
      j := j + 1;
    }
    assert project.tags[..j] == project.tags;
  }

  /**
   * `m` groups the tags of the projects `done` and of the first `j` tags of
   * `project`.
   */
  ghost predicate GroupedUpTo(m: map<string, seq<ProjectRef>>, done: seq<Project>, project: Project, j: nat)
    requires j <= |project.tags|
  {
    && m.Keys == AllTags(done) + TagsBefore(project.tags, j)
    && forall t :: t in m ==> m[t] == Occurrences(done, t) + RefsFor(project, project.tags[..j], t)
  }

  /** Visiting one more tag occurrence: start an empty list if the tag is new, then push the project. */
  lemma GroupedTag(done: seq<Project>, project: Project, j: nat, m: map<string, seq<ProjectRef>>)
    requires j < |project.tags| && GroupedUpTo(m, done, project, j)
    ensures var tag := project.tags[j];
      GroupedUpTo(m[tag := (if tag in m then m[tag] else []) + [RefOf(project)]], done, project, j + 1)
  {
    var tag := project.tags[j];
    var m' := m[tag := (if tag in m then m[tag] else []) + [RefOf(project)]];
    TagsBeforeSnoc(project.tags, j);
    forall t | t in m'
      ensures m'[t] == Occurrences(done, t) + RefsFor(project, project.tags[..j + 1], t)
    {
      if t !in m {
        OccurrencesAbsent(done, t);
        RefsForAbsent(project, project.tags[..j], t);
        GroupedTagValue(done, project, j, [], t);
      } else {
        GroupedTagValue(done, project, j, m[t], t);
      }
    }
  }

  /** The list of one tag `t` after visiting occurrence `j`, from its list `group` before. */
  lemma GroupedTagValue(done: seq<Project>, project: Project, j: nat, group: seq<ProjectRef>, t: string)
    requires j < |project.tags|
    requires group == Occurrences(done, t) + RefsFor(project, project.tags[..j], t)
    ensures (if t == project.tags[j] then group + [RefOf(project)] else group)
      == Occurrences(done, t) + RefsFor(project, project.tags[..j + 1], t)
  {
    RefsForSnoc(project, project.tags, j, t);
  }

  /** Finishing a project's tags is visiting one more project. */
  lemma GroupedProject(projects: seq<Project>, i: nat, m: map<string, seq<ProjectRef>>)
    requires i < |projects|
    requires m.Keys == AllTags(projects[..i]) + TagsBefore(projects[i].tags, |projects[i].tags|)
    requires forall t :: t in m ==> m[t] == Occurrences(projects[..i], t) + RefsFor(projects[i], projects[i].tags, t)
    ensures m.Keys == AllTags(projects[..i + 1])
    ensures forall t :: t in m ==> m[t] == Occurrences(projects[..i + 1], t)
  {
    var project := projects[i];
    assert projects[..i + 1] == projects[..i] + [project];
    assert projects[..i + 1][..i] == projects[..i];
    AllTagsSnoc(projects[..i], project);
  }

  /**
   * `byTech[t1] || byTech[t2] || ... || []`: the list of the first tag that
   * has one. A present entry is an array, and arrays are truthy.
   */
  function FirstPresent(byTech: map<string, seq<ProjectRef>>, tags: seq<string>): (r: seq<ProjectRef>)
    ensures (forall k :: 0 <= k < |tags| ==> tags[k] !in byTech) ==> r == []
    ensures forall k :: (0 <= k < |tags| && tags[k] in byTech &&
                         (forall j :: 0 <= j < k ==> tags[j] !in byTech)) ==> r == byTech[tags[k]]
  {
    if tags == [] then []
    else if tags[0] in byTech then byTech[tags[0]]
    else
      var r := FirstPresent(byTech, tags[1..]);
      assert forall k :: 1 <= k < |tags| ==> tags[k] == tags[1..][k - 1];
      r
  }

  // ---------------------------------------------------------------------
  // The nodeWebData constant

  function Leaf(id: string, name: string, color: string, projects: seq<ProjectRef>): Node {
    Node(id, name, color, projects, [])
  }

  function Frontend(byTech: map<string, seq<ProjectRef>>): Node {
    Node("frontend", "Frontend", "#3B82F6", [], [
      Leaf("react", "React", "#61DAFB", FirstPresent(byTech, ["React"])),
      Leaf("threejs", "Three.js", "#049EF4", FirstPresent(byTech, ["Three.js"])),
      Leaf("styling", "Styling", "#06B6D4", FirstPresent(byTech, ["CSS"]))])
  }

  function Databases(byTech: map<string, seq<ProjectRef>>): Node {
    Node("databases", "Databases", "#47A248", [], [
      Leaf("mongodb", "MongoDB", "#47A248", FirstPresent(byTech, ["MongoDB"])),
      Leaf("firebase", "Firebase", "#FFCA28", FirstPresent(byTech, ["Firebase"]))])
  }

  function Backend(byTech: map<string, seq<ProjectRef>>): Node {
    Node("backend", "Backend", "#10B981", [], [
      Leaf("nodejs", "Node.js", "#339933", FirstPresent(byTech, ["Node.js"])),
      Leaf("python", "Python", "#3776AB", FirstPresent(byTech, ["Python"])),
      Databases(byTech)])
  }

  function DevOps(byTech: map<string, seq<ProjectRef>>): Node {
    Node("devops", "DevOps", "#F59E0B", [], [
      Leaf("jenkins", "Jenkins", "#D97706", FirstPresent(byTech, ["Jenkins"])),
      Leaf("docker", "Docker", "#2496ED", FirstPresent(byTech, ["Docker"])),
      Leaf("ansible", "Ansible", "#EE0000", FirstPresent(byTech, ["Ansible"])),
      Leaf("aws", "AWS Cloud", "#FF9900", FirstPresent(byTech, ["AWS EC2", "AWS Cloud"]))])
  }

  function AiMl(byTech: map<string, seq<ProjectRef>>): Node {
    Node("aiml", "AI/ML", "#EF4444", [], [
      Leaf("llm", "LLM APIs", "#DC2626", FirstPresent(byTech, ["LLM API", "AI/ML"])),
      Leaf("streamlit", "Streamlit", "#FF4B4B", FirstPresent(byTech, ["Streamlit"])),
      Leaf("flask", "Flask", "#000000", FirstPresent(byTech, ["Flask"]))])
  }

  function Mobile(byTech: map<string, seq<ProjectRef>>): Node {
    Node("mobile", "Mobile", "#8B5CF6", [], [
      Leaf("react-native", "React Native", "#61DAFB", FirstPresent(byTech, ["React Native"])),
      Leaf("java-android", "Java/Android", "#007396", FirstPresent(byTech, ["Java", "Android SDK"]))])
  }

  /**
   * `nodeWebData`, with leaf project lists looked up in `byTech`. Its ids in
   * pre-order are the start node, then the frontend, backend, devops, AI/ML
   * and mobile groups, whatever the project data.
   */
  function NodeWebData(byTech: map<string, seq<ProjectRef>>): (r: Node)
    ensures Ids(PreOrder(r)) == NodeWebDataIds
  {
    var r := Node("start", "Start", "#8B5CF6", [], [
      Frontend(byTech), Backend(byTech), DevOps(byTech), AiMl(byTech), Mobile(byTech)]);
    FrontendShape(byTech);
    BackendShape(byTech);
    DevOpsShape(byTech);
    AiMlShape(byTech);
    MobileShape(byTech);
    RootShape(r, FrontendIds, BackendIds, DevOpsIds, AiMlIds, MobileIds);
    r
  }

  const FrontendIds: seq<string> := ["frontend", "react", "threejs", "styling"]
  const BackendIds: seq<string> := ["backend", "nodejs", "python", "databases", "mongodb", "firebase"]
  const DevOpsIds: seq<string> := ["devops", "jenkins", "docker", "ansible", "aws"]
  const AiMlIds: seq<string> := ["aiml", "llm", "streamlit", "flask"]
  const MobileIds: seq<string> := ["mobile", "react-native", "java-android"]

  /** The 23 ids of `nodeWebData`, in pre-order. */
  const NodeWebDataIds: seq<string> :=
    ["start"] + FrontendIds + BackendIds + DevOpsIds + AiMlIds + MobileIds

  lemma LeafIds(n: Node)
    requires n.children == []
    ensures Ids(PreOrder(n)) == [n.id]
  {
    assert PreOrder(n) == [n];
  }

  /** The pre-order ids of a node whose children are all leaves. */
  lemma TwoLevelIds(n: Node)
    requires forall k :: 0 <= k < |n.children| ==> n.children[k].children == []
    ensures Ids(PreOrder(n)) == [n.id] + Ids(n.children)
  {
    TwoLevelIdsUpTo(n, |n.children|);
    IdsAppend([n], PreOrderUpTo(n, |n.children|));
  }

  lemma {:induction false} TwoLevelIdsUpTo(n: Node, k: nat)
    requires k <= |n.children|
    requires forall j :: 0 <= j < |n.children| ==> n.children[j].children == []
    ensures Ids(PreOrderUpTo(n, k)) == Ids(n.children[..k])
  {
    if k > 0 {
      TwoLevelIdsUpTo(n, k - 1);
      LeafIds(n.children[k - 1]);
      IdsAppend(PreOrderUpTo(n, k - 1), PreOrder(n.children[k - 1]));
      assert n.children[..k] == n.children[..k - 1] + [n.children[k - 1]];
      IdsAppend(n.children[..k - 1], [n.children[k - 1]]);
    }
  }

  /** The ids of the first `k` children's subtrees, child after child. */
  lemma UpToIds(n: Node, k: nat)
    requires 0 < k <= |n.children|
    ensures Ids(PreOrderUpTo(n, k)) == Ids(PreOrderUpTo(n, k - 1)) + Ids(PreOrder(n.children[k - 1]))
  {
    IdsAppend(PreOrderUpTo(n, k - 1), PreOrder(n.children[k - 1]));
  }

  lemma RootIds(n: Node)
    ensures Ids(PreOrder(n)) == [n.id] + Ids(PreOrderUpTo(n, |n.children|))
  {
    IdsAppend([n], PreOrderUpTo(n, |n.children|));
  }

  lemma BackendShape(byTech: map<string, seq<ProjectRef>>)
    ensures Ids(PreOrder(Backend(byTech))) == BackendIds
  {
    var b := Backend(byTech);
    TwoLevelIds(Databases(byTech));
    LeafIds(b.children[0]);
    LeafIds(b.children[1]);
    UpToIds(b, 1);
    UpToIds(b, 2);
    UpToIds(b, 3);
    RootIds(b);
  }

  lemma RootShape(root: Node, a: seq<string>, b: seq<string>, c: seq<string>, d: seq<string>, e: seq<string>)
    requires |root.children| == 5
    requires Ids(PreOrder(root.children[0])) == a && Ids(PreOrder(root.children[1])) == b
    requires Ids(PreOrder(root.children[2])) == c && Ids(PreOrder(root.children[3])) == d
    requires Ids(PreOrder(root.children[4])) == e
    ensures Ids(PreOrder(root)) == [root.id] + (a + b + c + d + e)
  {
    assert Ids(PreOrderUpTo(root, 0)) == [];
    UpToIds(root, 1);
    assert Ids(PreOrderUpTo(root, 1)) == a;
    UpToIds(root, 2);
    assert Ids(PreOrderUpTo(root, 2)) == a + b;
    UpToIds(root, 3);
    assert Ids(PreOrderUpTo(root, 3)) == a + b + c;
    UpToIds(root, 4);
    assert Ids(PreOrderUpTo(root, 4)) == a + b + c + d;
    UpToIds(root, 5);
    assert Ids(PreOrderUpTo(root, 5)) == a + b + c + d + e;
    RootIds(root);
  }

  lemma FrontendShape(byTech: map<string, seq<ProjectRef>>)
    ensures Ids(PreOrder(Frontend(byTech))) == FrontendIds
  {
    var n := Frontend(byTech);
    TwoLevelIds(n);
    assert Ids(n.children) == ["react", "threejs", "styling"];
  }

  lemma DevOpsShape(byTech: map<string, seq<ProjectRef>>)
    ensures Ids(PreOrder(DevOps(byTech))) == DevOpsIds
  {
    var n := DevOps(byTech);
    TwoLevelIds(n);
    assert Ids(n.children) == ["jenkins", "docker", "ansible", "aws"];
  }

  lemma AiMlShape(byTech: map<string, seq<ProjectRef>>)
    ensures Ids(PreOrder(AiMl(byTech))) == AiMlIds
  {
    var n := AiMl(byTech);
    TwoLevelIds(n);
    assert Ids(n.children) == ["llm", "streamlit", "flask"];
  }

  lemma MobileShape(byTech: map<string, seq<ProjectRef>>)
    ensures Ids(PreOrder(Mobile(byTech))) == MobileIds
  {
    var n := Mobile(byTech);
    TwoLevelIds(n);
    assert Ids(n.children) == ["react-native", "java-android"];
  }

  lemma NoDupCons(x: string, s: seq<string>)
    requires x !in s && NoDup(s)
    ensures NoDup([x] + s)
  {
    NoDupAppend([x], s);
  }

  lemma GroupsNoDup()
    ensures NoDup(FrontendIds) && NoDup(BackendIds) && NoDup(DevOpsIds)
    ensures NoDup(AiMlIds) && NoDup(MobileIds)
  {
    NoDupCons("threejs", ["styling"]);
    NoDupCons("react", ["threejs", "styling"]);
    NoDupCons("frontend", ["react", "threejs", "styling"]);
    NoDupCons("mongodb", ["firebase"]);
    NoDupCons("databases", ["mongodb", "firebase"]);
    NoDupCons("python", ["databases", "mongodb", "firebase"]);
    NoDupCons("nodejs", ["python", "databases", "mongodb", "firebase"]);
    NoDupCons("backend", ["nodejs", "python", "databases", "mongodb", "firebase"]);
    NoDupCons("ansible", ["aws"]);
    NoDupCons("docker", ["ansible", "aws"]);
    NoDupCons("jenkins", ["docker", "ansible", "aws"]);
    NoDupCons("devops", ["jenkins", "docker", "ansible", "aws"]);
    NoDupCons("streamlit", ["flask"]);
    NoDupCons("llm", ["streamlit", "flask"]);
    NoDupCons("aiml", ["llm", "streamlit", "flask"]);
    NoDupCons("react-native", ["java-android"]);
    NoDupCons("mobile", ["react-native", "java-android"]);
  }

  predicate Disjoint(a: seq<string>, b: seq<string>) {
    forall x :: x in a ==> x !in b
  }

  lemma JoinNoDup(a: seq<string>, b: seq<string>)
    requires NoDup(a) && NoDup(b) && Disjoint(a, b)
    ensures NoDup(a + b)
  {
    NoDupAppend(a, b);
  }

  lemma DisjointSteps()
    ensures Disjoint(["start"], FrontendIds)
    ensures Disjoint(["start"] + FrontendIds, BackendIds)
    ensures Disjoint(["start"] + FrontendIds + BackendIds, DevOpsIds)
  {
  }

  lemma DisjointLaterSteps()
    ensures Disjoint(["start"] + FrontendIds + BackendIds + DevOpsIds, AiMlIds)
    ensures Disjoint(["start"] + FrontendIds + BackendIds + DevOpsIds + AiMlIds, MobileIds)
  {
  }

  /** Every id of `nodeWebData` is different from every other. */
  lemma NodeWebDataDistinctIds(byTech: map<string, seq<ProjectRef>>)
    ensures DistinctIds(NodeWebData(byTech))
  {
    GroupsNoDup();
    DisjointSteps();
    DisjointLaterSteps();
    var p0 := ["start"];
    JoinNoDup(p0, FrontendIds);
    var p1 := p0 + FrontendIds;
    JoinNoDup(p1, BackendIds);
    var p2 := p1 + BackendIds;
    JoinNoDup(p2, DevOpsIds);
    var p3 := p2 + DevOpsIds;
    JoinNoDup(p3, AiMlIds);
    var p4 := p3 + AiMlIds;
    JoinNoDup(p4, MobileIds);
  }
}
