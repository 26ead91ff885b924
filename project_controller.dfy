/** The project routes of the server: listing a user's projects, the next project id,
    create, update and delete by the owner, and the public read guarded by the link key. */
module ProjectController {
  import opened Js
  import opened Http
  import opened Store

  // ---------------------------------------------------------------- getUserProjects

  /** The caller's projects, each with its groups and their students. */
  function UserProjects(db: Database, userId: int): (r: map<int, ProjectWithGroups>)
    reads db
    ensures forall id :: id in r <==> id in db.projects && db.projects[id].userId == userId
    ensures forall id :: id in r ==>
      && r[id].project == db.projects[id]
      && (forall g :: g in r[id].groups <==> g in db.groups && g.projectId == db.projects[id].id)
  {
    map id | id in db.projects && db.projects[id].userId == userId
      :: WithGroups(db.projects[id], db.groups)
  }

  // ---------------------------------------------------------------- getNextProjectId

  /** A finite non-empty set of ids has a largest element. */
  lemma {:induction false} LargestExists(ids: set<int>)
    requires ids != {}
    ensures exists m :: m in ids && forall id :: id in ids ==> id <= m
    decreases |ids|
  {
    if forall y :: y !in ids { assert false; }
    var x :| x in ids;
    if ids == {x} {
      assert forall id :: id in ids ==> id <= x;
    } else {
      var rest := ids - {x};
      LargestExists(rest);
      var m :| m in rest && forall id :: id in rest ==> id <= m;
      var top := if m < x then x else m;
      forall id | id in ids
        ensures id <= top
      {
        if id != x {
          assert id in rest;
        }
      }
      assert top in ids;
    }
  }

  /** The id of the last project in `orderBy: { id: "desc" }` order. */
  function LastProjectId(ids: set<int>): (m: int)
    requires ids != {}
    ensures m in ids
    ensures forall id :: id in ids ==> id <= m
  {
    LargestExists(ids);
    var m :| m in ids && forall id :: id in ids ==> id <= m; m
  }

  /** `(lastProject?.id || 0) + 1`: one more than the largest id, or 1 on an empty table.
      (A largest id of 0 is falsy and also gives 1.) */
  function NextProjectId(ids: set<int>): (r: int)
    ensures forall id :: id in ids ==> id < r
    ensures ids == {} ==> r == 1
    ensures ids != {} ==> r - 1 in ids
  {
    if ids == {} then 1 else LastProjectId(ids) + 1
  }

  /** On a consistent store the announced next id is positive and never above the id the
      sequence hands out next; it is that id as long as the last id handed out is still stored. */
  lemma NextIdAgainstSequence(db: Database)
    requires db.Valid()
    ensures 1 <= NextProjectId(db.projects.Keys) <= db.projectSeq
    ensures (db.projectSeq - 1 in db.projects || (db.projects == map[] && db.projectSeq == 1))
        ==> NextProjectId(db.projects.Keys) == db.projectSeq
  {
  }

  /** The id the project sequence assigns to the next created row. Unlike the largest
      stored id plus one, it is never an id that was handed out before. */
  function SequenceNextId(db: Database): (r: int)
    reads db
    requires db.Valid()
    ensures r !in db.projects && forall id :: id in db.projects ==> id < r
    ensures NextProjectId(db.projects.Keys) <= r
  {
    NextIdAgainstSequence(db);
    db.projectSeq
  }

  // ---------------------------------------------------------------- createProject

  /** The JSON body of a create request; the four checked fields may be missing. */
  datatype ProjectBody = ProjectBody(
    name: Option<string>,
    githubOrg: Option<string>,
    minStudents: int,
    maxStudents: int,
    groupConvention: string,
    uniqueKey: Option<string>,
    uniqueUrl: Option<string>)

  /** `name`, `githubOrg`, `uniqueKey` and `uniqueUrl` are all truthy. */
  predicate HasRequiredFields(body: ProjectBody) {
    Truthy(body.name) && Truthy(body.githubOrg) && Truthy(body.uniqueKey) && Truthy(body.uniqueUrl)
  }

  /** Each of the four checked fields is required on its own: leaving any one of them out,
      or sending it empty, makes an otherwise valid body fail. */
  lemma EachFieldRequired(body: ProjectBody, missing: Option<string>)
    requires HasRequiredFields(body) && !Truthy(missing)
    ensures !HasRequiredFields(body.(name := missing))
    ensures !HasRequiredFields(body.(githubOrg := missing))
    ensures !HasRequiredFields(body.(uniqueKey := missing))
    ensures !HasRequiredFields(body.(uniqueUrl := missing))
    ensures forall k :: k != "" ==> HasRequiredFields(body.(uniqueKey := Some(k)))
  {
  }

  /** The row written for a valid create request from user `userId`. */
  function NewProject(id: int, userId: int, body: ProjectBody): (p: Project)
    requires HasRequiredFields(body)
    ensures p.id == id && p.userId == userId
    ensures Some(p.name) == body.name && Some(p.githubOrg) == body.githubOrg
    ensures p.minStudents == body.minStudents && p.maxStudents == body.maxStudents
    ensures p.groupConvention == body.groupConvention && Some(p.uniqueUrl) == body.uniqueUrl
    ensures Truthy(Some(p.name)) && Truthy(Some(p.githubOrg)) && Truthy(Some(p.uniqueUrl))
  {
    Project(id, body.name.value, body.githubOrg.value, body.minStudents, body.maxStudents,
            body.groupConvention, userId, body.uniqueUrl.value)
  }

  /** The key is checked for presence but is not part of the stored row. */
  lemma KeyNotStored(id: int, userId: int, body: ProjectBody, otherKey: string)
    requires HasRequiredFields(body) && otherKey != ""
    ensures NewProject(id, userId, body) == NewProject(id, userId, body.(uniqueKey := Some(otherKey)))
  {
  }

  method CreateProject(db: Database, userId: int, body: ProjectBody) returns (reply: Reply<Project>)
    requires db.Valid()
    modifies db
    ensures db.Valid()
    ensures !HasRequiredFields(body) ==> reply == Refused(BAD_REQUEST) && unchanged(db)
    ensures HasRequiredFields(body) ==>
      && old(db.projectSeq) !in old(db.projects)
      && reply == Ok(CREATED, NewProject(old(db.projectSeq), userId, body))
      && db.projects == old(db.projects)[old(db.projectSeq) := reply.value]
      && db.projectSeq == old(db.projectSeq) + 1
      && db.groups == old(db.groups) && db.groupSeq == old(db.groupSeq)
  {
    if !HasRequiredFields(body) {
      return Refused(BAD_REQUEST);
    }
    var project := NewProject(db.projectSeq, userId, body);
    db.projects := db.projects[db.projectSeq := project];
    db.projectSeq := db.projectSeq + 1;
    reply := Ok(CREATED, project);
  }

  // ---------------------------------------------------------------- owner guard

  /** The status decided by the lookup and the owner comparison of update and delete. */
  function OwnerCheck(projects: map<int, Project>, userId: int, id: int): (status: int)
    ensures status == NOT_FOUND <==> id !in projects
    ensures status == FORBIDDEN <==> id in projects && projects[id].userId != userId
    ensures status == OK <==> id in projects && projects[id].userId == userId
  {
    if id !in projects then NOT_FOUND
    else if projects[id].userId != userId then FORBIDDEN
    else OK
  }

  // ---------------------------------------------------------------- updateProject

  /** The editable fields of an update request; a missing field is `undefined`, which the
      store's update skips. */
  datatype ProjectPatch = ProjectPatch(
    name: Option<string>,
    githubOrg: Option<string>,
    minStudents: Option<int>,
    maxStudents: Option<int>,
    groupConvention: Option<string>)

  /** The row after an update: the five editable fields take the given values, the owner,
      the id and the link stay. */
  function Patched(p: Project, patch: ProjectPatch): (r: Project)
    ensures r.id == p.id && r.userId == p.userId && r.uniqueUrl == p.uniqueUrl
    ensures patch.name.Some? ==> r.name == patch.name.value
    ensures patch.name.None? ==> r.name == p.name
    ensures patch.githubOrg.Some? ==> r.githubOrg == patch.githubOrg.value
    ensures patch.githubOrg.None? ==> r.githubOrg == p.githubOrg
    ensures patch.minStudents.Some? ==> r.minStudents == patch.minStudents.value
    ensures patch.minStudents.None? ==> r.minStudents == p.minStudents
    ensures patch.maxStudents.Some? ==> r.maxStudents == patch.maxStudents.value
    ensures patch.maxStudents.None? ==> r.maxStudents == p.maxStudents
    ensures patch.groupConvention.Some? ==> r.groupConvention == patch.groupConvention.value
    ensures patch.groupConvention.None? ==> r.groupConvention == p.groupConvention
  {
    p.(name := patch.name.GetOr(p.name),
       githubOrg := patch.githubOrg.GetOr(p.githubOrg),
       minStudents := patch.minStudents.GetOr(p.minStudents),
       maxStudents := patch.maxStudents.GetOr(p.maxStudents),
       groupConvention := patch.groupConvention.GetOr(p.groupConvention))
  }

  /** Applying the same update twice is the same as applying it once. */
  lemma PatchIdempotent(p: Project, patch: ProjectPatch)
    ensures Patched(Patched(p, patch), patch) == Patched(p, patch)
  {
  }

  method UpdateProject(db: Database, userId: int, id: int, patch: ProjectPatch)
    returns (reply: Reply<Project>)
    requires db.Valid()
    modifies db
    ensures db.Valid()
    ensures reply.status == OwnerCheck(old(db.projects), userId, id)
    ensures reply.Refused? ==> unchanged(db)
    ensures reply.Ok? ==>
      && id in old(db.projects)
      && reply.value == Patched(old(db.projects)[id], patch)
      && db.projects == old(db.projects)[id := reply.value]
      && db.groups == old(db.groups)
      && db.projectSeq == old(db.projectSeq) && db.groupSeq == old(db.groupSeq)
  {
    if id !in db.projects {
      return Refused(NOT_FOUND);
    }
    var project := db.projects[id];
    if project.userId != userId {
      return Refused(FORBIDDEN);
    }
    var updated := Patched(project, patch);
    db.projects := db.projects[id := updated];
    reply := Ok(OK, updated);
  }

  // ---------------------------------------------------------------- deleteProject

  method DeleteProject(db: Database, userId: int, id: int) returns (reply: Reply<()>)
    requires db.Valid()
    modifies db
    ensures db.Valid()
    ensures reply.status == OwnerCheck(old(db.projects), userId, id)
    ensures reply.Ok? <==> reply.status == OK
    ensures reply.Refused? ==> unchanged(db)
    ensures reply.Ok? ==>
      && id in old(db.projects)
      && db.projects == old(db.projects) - {id}
      && db.groups == old(db.groups)
      && db.projectSeq == old(db.projectSeq) && db.groupSeq == old(db.groupSeq)
  {
    if id !in db.projects {
      return Refused(NOT_FOUND);
    }
    if db.projects[id].userId != userId {
      return Refused(FORBIDDEN);
    }
    db.projects := db.projects - {id};
    reply := Ok(OK, ());
  }

  // ---------------------------------------------------------------- getProjectPublic

  /** The lookup and substring test shared by the public project and group reads. */
  function KeyCheck(projects: map<int, Project>, id: int, key: string): (status: int)
    ensures status == NOT_FOUND <==> id !in projects
    ensures status == FORBIDDEN <==> id in projects && !Includes(projects[id].uniqueUrl, key)
    ensures status == OK <==> id in projects && Includes(projects[id].uniqueUrl, key)
  {
    if id !in projects then NOT_FOUND
    else if !Includes(projects[id].uniqueUrl, key) then FORBIDDEN
    else OK
  }

  /** The project with its groups, for whoever holds a key contained in its link. */
  function PublicProject(db: Database, id: int, key: string): (r: Reply<ProjectWithGroups>)
    reads db
    ensures r.status == KeyCheck(db.projects, id, key)
    ensures r.Ok? <==> r.status == OK
    ensures r.Ok? ==>
      && r.value.project == db.projects[id]
      && (forall g :: g in r.value.groups <==> g in db.groups && g.projectId == db.projects[id].id)
  {
    var status := KeyCheck(db.projects, id, key);
    if status == OK then Ok(OK, WithGroups(db.projects[id], db.groups)) else Refused(status)
  }
}
