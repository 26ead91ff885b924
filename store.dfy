/** The database behind the server controllers: the `Project`, `Group` and `Student`
    tables, held in memory. Ids come from autoincrement sequences that never hand out
    an id twice. */
module Store {

  /** A row of the project table. The create route writes no key (projectController.ts:44-54): only the link is stored. */
  datatype Project = Project(
    id: int,
    name: string,
    githubOrg: string,
    minStudents: int,
    maxStudents: int,
    groupConvention: string,
    userId: int,
    uniqueUrl: string)

  /** A student row created together with its group (its own id is not modelled). */
  datatype Member = Member(fullName: string, githubUsername: string)

  /** A row of the group table with the student rows attached to it. */
  datatype GroupRow = GroupRow(id: int, name: string, projectId: int, students: seq<Member>)

  /** A project as returned with `include: { groups: { include: { students: true } } }`. */
  datatype ProjectWithGroups = ProjectWithGroups(project: Project, groups: seq<GroupRow>)

  /** The groups whose `projectId` is the given one, in table order. */
  function GroupsOf(groups: seq<GroupRow>, projectId: int): (r: seq<GroupRow>)
    ensures |r| <= |groups|
  {
    if groups == [] then []
    else (if groups[0].projectId == projectId then [groups[0]] else [])
         + GroupsOf(groups[1..], projectId)
  }

  /** The selected groups are exactly the table's groups of that project. */
  lemma {:induction false} GroupsOfMembers(groups: seq<GroupRow>, projectId: int)
    ensures forall g :: g in GroupsOf(groups, projectId) <==> g in groups && g.projectId == projectId
    decreases |groups|
  {
    if groups != [] {
      GroupsOfMembers(groups[1..], projectId);
      assert groups == [groups[0]] + groups[1..];
    }
  }

  /** Inserting a group adds it at the end of its own project's list and leaves the
      list of every other project as it was. */
  lemma {:induction false} GroupsOfAppend(groups: seq<GroupRow>, g: GroupRow, projectId: int)
    ensures GroupsOf(groups + [g], projectId)
         == GroupsOf(groups, projectId) + (if g.projectId == projectId then [g] else [])
  {
    var tail := if g.projectId == projectId then [g] else [];
    if groups == [] {
      assert groups + [g] == [g];
    } else {
      var first, rest := groups[0], groups[1..];
      var head := if first.projectId == projectId then [first] else [];
      GroupsOfAppend(rest, g, projectId);
      assert GroupsOf(groups + [g], projectId) == head + (GroupsOf(rest, projectId) + tail) by {
        assert (groups + [g])[0] == first;
        assert (groups + [g])[1..] == rest + [g];
      }
      assert GroupsOf(groups, projectId) == head + GroupsOf(rest, projectId);
    }
  }

  /** `project` joined with its groups. */
  function WithGroups(project: Project, groups: seq<GroupRow>): (r: ProjectWithGroups)
    ensures r.project == project
    ensures forall g :: g in r.groups <==> g in groups && g.projectId == project.id
  {
    GroupsOfMembers(groups, project.id);
    ProjectWithGroups(project, GroupsOf(groups, project.id))
  }

  class Database {
    var projects: map<int, Project>
    var groups: seq<GroupRow>
    /** The next value of the project id sequence. */
    var projectSeq: int
    /** The next value of the group id sequence. */
    var groupSeq: int

    /** Every stored id was handed out by its sequence, and a project is stored under its id. */
    ghost predicate Valid()
      reads this
      ensures Valid() ==> projectSeq !in projects
      ensures Valid() ==> forall i :: 0 <= i < |groups| ==> groups[i].id != groupSeq
    {
      && projectSeq >= 1
      && groupSeq >= 1
      && (forall id :: id in projects ==> 1 <= id < projectSeq && projects[id].id == id)
      && (forall i :: 0 <= i < |groups| ==> 1 <= groups[i].id < groupSeq)
    }

    constructor ()
      ensures Valid()
      ensures projects == map[] && groups == []
      ensures projectSeq == 1 && groupSeq == 1
    {
      projects := map[];
      groups := [];
      projectSeq := 1;
      groupSeq := 1;
    }
  }
}
