/** The public group routes of the server: reading a project's groups and creating a
    group, both guarded by a key that must occur in the project's link. */
module GroupController {
  import opened Js
  import opened Http
  import opened Store
  import ProjectController

  // ---------------------------------------------------------------- getGroups

  /** The groups of project `id`, with their students, for whoever holds a key contained
      in its link. */
  function Groups(db: Database, id: int, key: string): (r: Reply<seq<GroupRow>>)
    reads db
    ensures r.status == ProjectController.KeyCheck(db.projects, id, key)
    ensures r.Ok? <==> r.status == OK
    ensures r.Ok? ==> forall g :: g in r.value <==> g in db.groups && g.projectId == db.projects[id].id
  {
    var status := ProjectController.KeyCheck(db.projects, id, key);
    if status == OK then Ok(OK, WithGroups(db.projects[id], db.groups).groups) else Refused(status)
  }

  // ---------------------------------------------------------------- createGroup

  /** One entry of the submitted `students` array; fields other than the two names
      (such as an `id` the client kept) are ignored. */
  datatype StudentInput = StudentInput(id: Option<int>, fullName: string, githubUsername: string)

  /** `students.map(s => ({ fullName: s.fullName, githubUsername: s.githubUsername }))`. */
  function ToMembers(students: seq<StudentInput>): (r: seq<Member>)
    ensures |r| == |students|
    ensures forall i :: 0 <= i < |students| ==>
      r[i].fullName == students[i].fullName && r[i].githubUsername == students[i].githubUsername
  {
    if students == [] then []
    else [Member(students[0].fullName, students[0].githubUsername)] + ToMembers(students[1..])
  }

  /** The fixed group name: a prefix followed by the project's name. */
  const GROUP_NAME_PREFIX: string := "Groupe du projet "

  /** The status decided before anything is written. The path parameter is None when it
      is empty (falsy); `students` is None when it is absent or not an array. A missing
      project and a bad key both give 403. */
  function CreateCheck(projects: map<int, Project>, projectId: Option<int>, key: string,
                       students: Option<seq<StudentInput>>): (status: int)
    ensures status == BAD_REQUEST <==> projectId.None? || students.None?
    ensures status == FORBIDDEN <==>
      && projectId.Some? && students.Some?
      && (projectId.value !in projects || !Includes(projects[projectId.value].uniqueUrl, key))
    ensures status == CREATED <==>
      && projectId.Some? && students.Some?
      && projectId.value in projects && Includes(projects[projectId.value].uniqueUrl, key)
  {
    if projectId.None? || students.None? then BAD_REQUEST
    else if projectId.value !in projects || !Includes(projects[projectId.value].uniqueUrl, key)
    then FORBIDDEN
    else CREATED
  }

  /** The group row written for an accepted request. */
  function NewGroup(id: int, project: Project, projectId: int, students: seq<StudentInput>): (g: GroupRow)
    ensures g.id == id && g.projectId == projectId
    ensures g.name == GROUP_NAME_PREFIX + project.name && project.name <= g.name[|GROUP_NAME_PREFIX|..]
    ensures |g.students| == |students|
    ensures forall i :: 0 <= i < |students| ==>
      g.students[i].fullName == students[i].fullName
      && g.students[i].githubUsername == students[i].githubUsername
  {
    GroupRow(id, GROUP_NAME_PREFIX + project.name, projectId, ToMembers(students))
  }

  method CreateGroup(db: Database, projectId: Option<int>, key: string,
                     students: Option<seq<StudentInput>>) returns (reply: Reply<GroupRow>)
    requires db.Valid()
    modifies db
    ensures db.Valid()
    ensures reply.status == CreateCheck(old(db.projects), projectId, key, students)
    ensures reply.Refused? ==> unchanged(db)
    ensures reply.Ok? ==>
      && projectId.Some? && students.Some? && projectId.value in old(db.projects)
      && reply.value == NewGroup(old(db.groupSeq), old(db.projects)[projectId.value],
                                 projectId.value, students.value)
      && db.groups == old(db.groups) + [reply.value]
      && db.projects == old(db.projects) && db.projectSeq == old(db.projectSeq)
      && db.groupSeq == old(db.groupSeq) + 1
  {
    if projectId.None? || students.None? {
      return Refused(BAD_REQUEST);
    }
    var id := projectId.value;
    if id !in db.projects || !Includes(db.projects[id].uniqueUrl, key) {
      return Refused(FORBIDDEN);
    }
    var group := NewGroup(db.groupSeq, db.projects[id], id, students.value);
    db.groups := db.groups + [group];
    db.groupSeq := db.groupSeq + 1;
    reply := Ok(CREATED, group);
  }

  /** No lower or upper bound on the number of students is applied here: with a valid key,
      an empty array, like any other, makes a group of exactly that many members. */
  lemma AnyRosterSizeAccepted(projects: map<int, Project>, id: int, key: string,
                              students: seq<StudentInput>)
    requires id in projects && Includes(projects[id].uniqueUrl, key)
    ensures CreateCheck(projects, Some(id), key, Some(students)) == CREATED
    ensures |NewGroup(0, projects[id], id, students).students| == |students|
  {
  }
}
