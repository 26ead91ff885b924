/** How the pieces meet: the link the instructor's form composes, the body it posts, and
    the substring gate the public routes apply to the key taken from that link. */
module AccessFlow {
  import opened Js
  import opened Http
  import opened Store
  import opened ProjectController
  import GroupController
  import ProjectForm
  import StudentContext
  import GroupForm

  /** The form's body as the server reads it: the named fields are present, and a key or
      link the client left out arrives as `undefined`. */
  function ServerBody(body: ProjectForm.Body): (r: ProjectBody)
    ensures r.name == Some(body.name) && r.githubOrg == Some(body.githubOrg)
    ensures r.minStudents == body.minStudents && r.maxStudents == body.maxStudents
    ensures r.groupConvention == body.groupConvention
    ensures r.uniqueKey == body.uniqueKey && r.uniqueUrl == body.uniqueUrl
  {
    ProjectBody(Some(body.name), Some(body.githubOrg), body.minStudents, body.maxStudents,
                body.groupConvention, body.uniqueKey, body.uniqueUrl)
  }

  /** The same body read as an update: all five editable fields are given. */
  function ServerPatch(body: ProjectForm.Body): (r: ProjectPatch)
    ensures r.name == Some(body.name) && r.githubOrg == Some(body.githubOrg)
    ensures r.minStudents == Some(body.minStudents) && r.maxStudents == Some(body.maxStudents)
    ensures r.groupConvention == Some(body.groupConvention)
  {
    ProjectPatch(Some(body.name), Some(body.githubOrg), Some(body.minStudents),
                 Some(body.maxStudents), Some(body.groupConvention))
  }

  /** A project whose stored link was composed with a key opens with that key, both for
      reading and for registering a group. */
  lemma LinkOpensProject(projects: map<int, Project>, id: int, frontUrl: string, nextId: int,
                         key: string, students: seq<GroupController.StudentInput>)
    requires id in projects && projects[id].uniqueUrl == ProjectForm.Link(frontUrl, nextId, key)
    ensures KeyCheck(projects, id, key) == OK
    ensures GroupController.CreateCheck(projects, Some(id), key, Some(students)) == CREATED
  {
  }

  /** A create submit made after the key and link were generated passes the server's
      checks, and the row it writes opens with the generated key. */
  lemma GeneratedProjectOpens(projects: map<int, Project>, id: int, userId: int,
                              body: ProjectForm.Body, frontUrl: string, nextId: int,
                              random: seq<ProjectForm.byte>)
    requires |random| == ProjectForm.KEY_BYTES
    requires body.name != "" && body.githubOrg != ""
    requires body.uniqueKey == Some(ProjectForm.AccessKey(random))
    requires body.uniqueUrl == Some(ProjectForm.Link(frontUrl, nextId, ProjectForm.AccessKey(random)))
    ensures HasRequiredFields(ServerBody(body))
    ensures KeyCheck(projects[id := NewProject(id, userId, ServerBody(body))], id,
                     ProjectForm.AccessKey(random)) == OK
  {
    ProjectForm.KeyRoundTrip(random);
    var key := ProjectForm.AccessKey(random);
    var url := ProjectForm.Link(frontUrl, nextId, key);
    assert |url| >= |key| == ProjectForm.KEY_LENGTH;
  }

  /** A create submit whose key and link were never generated (the next-id request failed)
      posts empty strings and is refused with 400. */
  lemma UngeneratedProjectRefused(name: string, githubOrg: string, minStudents: int,
                                  maxStudents: int, groupConvention: string)
    ensures !HasRequiredFields(ServerBody(ProjectForm.Body(name, githubOrg, minStudents,
              maxStudents, groupConvention, Some(""), Some(""))))
  {
  }

  /** Editing a project never touches its link, so every key that opened it still does. */
  lemma EditKeepsAccess(projects: map<int, Project>, id: int, body: ProjectForm.Body, key: string)
    requires id in projects
    ensures KeyCheck(projects[id := Patched(projects[id], ServerPatch(body))], id, key)
         == KeyCheck(projects, id, key)
  {
  }

  /** The gate only asks that the key occur somewhere in the stored link, and every
      composed link contains the route's own word: "CreateGroups" opens any project whose
      link the form composed, whatever its key. */
  lemma RouteWordOpensAnyLink(projects: map<int, Project>, id: int, frontUrl: string,
                              nextId: int, key: string)
    requires id in projects && projects[id].uniqueUrl == ProjectForm.Link(frontUrl, nextId, key)
    ensures KeyCheck(projects, id, "CreateGroups") == OK
  {
    ProjectForm.LinkContainsRouteWord(frontUrl, nextId, key);
  }

  /** The instructor's creation as a whole: a fresh creation form, the name and the
      organisation typed in, the next-id request answered with `nextId` (None when it
      fails), the submit, and the create route reading its body. */
  method CreateThroughForm(db: Database, userId: int, apiUrl: string, frontUrl: string,
                           name: string, githubOrg: string, nextId: Option<int>,
                           random: seq<ProjectForm.byte>) returns (reply: Reply<Project>)
    requires db.Valid() && |random| == ProjectForm.KEY_BYTES
    modifies db
    ensures db.Valid()
    ensures nextId.None? ==> reply == Refused(BAD_REQUEST) && unchanged(db)
    ensures nextId.Some? && name != "" && githubOrg != "" ==>
      && reply.Ok? && reply.value.id == old(db.projectSeq)
      && db.projects == old(db.projects)[old(db.projectSeq) := reply.value]
      && reply.value.name == name && reply.value.githubOrg == githubOrg
      && reply.value.uniqueUrl
         == ProjectForm.Link(frontUrl, nextId.value, ProjectForm.AccessKey(random))
      && KeyCheck(db.projects, reply.value.id, ProjectForm.AccessKey(random)) == OK
  {
    var form := new ProjectForm.Form(None);
    form.name, form.githubOrg := name, githubOrg;
    form.GenerateAccess(frontUrl, nextId, random);
    var request := form.Submit(apiUrl);
    var body := ServerBody(request.body);
    if nextId.None? {
      assert body.uniqueKey == Some("");
    } else {
      var key := ProjectForm.AccessKey(random);
      ProjectForm.KeyRoundTrip(random);
      assert body.uniqueKey == Some(key) && key != "";
      assert body.uniqueUrl == Some(ProjectForm.Link(frontUrl, nextId.value, key));
      assert body.name == Some(name) && body.githubOrg == Some(githubOrg);
    }
    reply := CreateProject(db, userId, body);
    if nextId.Some? && name != "" && githubOrg != "" {
      LinkOpensProject(db.projects, reply.value.id, frontUrl, nextId.value,
                       ProjectForm.AccessKey(random), []);
    }
  }

  /** As written, no route serves the form's next-id request, so it always fails: the key
      and the link stay empty and every creation through the form is refused with 400. */
  method CreateWithUnroutedNextId(db: Database, userId: int, apiUrl: string, frontUrl: string,
                                  name: string, githubOrg: string, random: seq<ProjectForm.byte>)
    returns (reply: Reply<Project>)
    requires db.Valid() && |random| == ProjectForm.KEY_BYTES
    modifies db
    ensures reply == Refused(BAD_REQUEST) && unchanged(db)
  {
    reply := CreateThroughForm(db, userId, apiUrl, frontUrl, name, githubOrg, None, random);
  }

  /** With a next-id route that answers the sequence's next value, a creation with a name
      and an organisation is stored under the id its link names, and the link opens it. */
  method CreateWithSequenceNextId(db: Database, userId: int, apiUrl: string, frontUrl: string,
                                  name: string, githubOrg: string, random: seq<ProjectForm.byte>)
    returns (reply: Reply<Project>)
    requires db.Valid() && |random| == ProjectForm.KEY_BYTES
    requires name != "" && githubOrg != ""
    modifies db
    ensures db.Valid() && reply.Ok?
    ensures reply.value.uniqueUrl
         == ProjectForm.Link(frontUrl, reply.value.id, ProjectForm.AccessKey(random))
    ensures reply.value.id in db.projects && db.projects[reply.value.id] == reply.value
    ensures KeyCheck(db.projects, reply.value.id, ProjectForm.AccessKey(random)) == OK
  {
    var nextId := SequenceNextId(db);
    reply := CreateThroughForm(db, userId, apiUrl, frontUrl, name, githubOrg, Some(nextId), random);
  }

  /** The announced id after a delete, as written: projects 1, 2 and 3 are created and 3
      is deleted, so the sequence stands at 4. The next id announced is 3, the form's link
      names 3, the row is stored under 4, and the link answers 404. */
  method StaleNextIdAfterDelete(userId: int, apiUrl: string, frontUrl: string,
                                random: seq<ProjectForm.byte>)
    returns (db: Database, announced: int, reply: Reply<Project>)
    requires |random| == ProjectForm.KEY_BYTES
    ensures announced == 3 && reply.Ok? && reply.value.id == 4
    ensures reply.value.uniqueUrl == ProjectForm.Link(frontUrl, 3, ProjectForm.AccessKey(random))
    ensures KeyCheck(db.projects, announced, ProjectForm.AccessKey(random)) == NOT_FOUND
    ensures KeyCheck(db.projects, 4, ProjectForm.AccessKey(random)) == OK
  {
    db := new Database();
    var body := ProjectBody(Some("p"), Some("org"), 1, 1, ProjectForm.DEFAULT_CONVENTION,
                            Some("k"), Some("u"));
    var r1 := CreateProject(db, userId, body);
    var r2 := CreateProject(db, userId, body);
    var r3 := CreateProject(db, userId, body);
    assert db.projects.Keys == {1, 2, 3} && db.projectSeq == 4;
    assert db.projects[3].userId == userId;
    var deleted := DeleteProject(db, userId, 3);
    assert deleted.status == OK;
    assert db.projects.Keys == {1, 2};
    announced := NextProjectId(db.projects.Keys);
    reply := CreateThroughForm(db, userId, apiUrl, frontUrl, "p", "org", Some(announced), random);
    assert db.projects.Keys == {1, 2, 4};
  }

  /** With the sequence's value announced, the created row is stored under the id its link
      names, and the link opens it with its key. */
  lemma SequenceLinkOpensCreatedProject(db: Database, userId: int, body: ProjectBody,
                                        frontUrl: string, key: string)
    requires db.Valid() && HasRequiredFields(body)
    requires body.uniqueUrl == Some(ProjectForm.Link(frontUrl, SequenceNextId(db), key))
    ensures var id := SequenceNextId(db);
            var created := db.projects[db.projectSeq := NewProject(db.projectSeq, userId, body)];
            && id == db.projectSeq && created[id].id == id
            && KeyCheck(created, id, key) == OK
  {
  }

  // ---------------------------------------------------------------- the registration page

  /** The project the public route returns, as the group form sees it: the stored row has
      no key field, because the create route checks the key but does not store it. */
  function PublicFormProject(row: Project): (r: GroupForm.FormProject)
    ensures r.id == row.id && r.minStudents == row.minStudents && r.maxStudents == row.maxStudents
    ensures !Truthy(r.uniqueKey)
  {
    GroupForm.FormProject(row.id, row.minStudents, row.maxStudents, None)
  }

  /** The roster as the server reads the posted `students` array. */
  function Inputs(students: seq<StudentContext.Student>): (r: seq<GroupController.StudentInput>)
    ensures |r| == |students|
    ensures forall i :: 0 <= i < |students| ==>
      r[i].fullName == students[i].fullName && r[i].githubUsername == students[i].githubUsername
  {
    if students == [] then []
    else [GroupController.StudentInput(students[0].id, students[0].fullName, students[0].githubUsername)]
         + Inputs(students[1..])
  }

  /** The registration form as written, fed with the project the public route returned:
      whatever the token and roster, nothing is sent and the roster stays. */
  method SubmitOnPublicPage(state: StudentContext.StudentState, row: Project,
                            token: Option<string>, accepted: bool)
    returns (sent: Option<GroupForm.CreateGroupRequest>)
    modifies state
    ensures sent.None? && state.students == old(state.students)
  {
    sent := GroupForm.Submit(state, PublicFormProject(row), token, accepted);
  }

  /** The corrected form on the page of a composed link: with a token it sends the roster
      under the link's key, and the server's gate accepts that request. */
  method SubmitOnPublicPageWithRouteKey(state: StudentContext.StudentState,
                                        projects: map<int, Project>, id: int, frontUrl: string,
                                        nextId: int, key: string, token: Option<string>,
                                        accepted: bool)
    returns (sent: Option<GroupForm.CreateGroupRequest>)
    requires id in projects && projects[id].uniqueUrl == ProjectForm.Link(frontUrl, nextId, key)
    requires projects[id].id == id && id != 0 && key != "" && Truthy(token)
    modifies state
    ensures sent.Some? && sent.value.projectId == id && sent.value.uniqueKey == key
    ensures sent.value.students == old(state.students)
    ensures GroupController.CreateCheck(projects, Some(sent.value.projectId), sent.value.uniqueKey,
                                        Some(Inputs(sent.value.students))) == CREATED
  {
    sent := GroupForm.SubmitWithRouteKey(state, PublicFormProject(projects[id]), key, token, accepted);
    LinkOpensProject(projects, id, frontUrl, nextId, key, Inputs(sent.value.students));
  }
}
