/** The group registration form: it fills the shared roster with the project's minimum
    number of blank entries, adds blank entries up to the maximum, and submits the roster. */
module GroupForm {
  import opened Js
  import opened StudentContext

  /** The fields of the public project that the form uses. */
  datatype FormProject = FormProject(id: int, minStudents: int, maxStudents: int, uniqueKey: Option<string>)

  /** The length of `Array.from({ length: n })`: a negative length gives an empty array. */
  function BlankCount(n: int): nat {
    if n < 0 then 0 else n
  }

  /** The roster the form starts from and returns to after a successful submit. */
  function Blanks(n: int): (r: seq<Student>)
    ensures |r| == BlankCount(n)
    ensures n >= 0 ==> |r| == n
    ensures forall i :: 0 <= i < |r| ==> r[i] == Blank
  {
    seq(BlankCount(n), _ => Blank)
  }

  /** The length invariant of the roster: never below the minimum, and above the maximum
      only while it still has its initial length (which happens when min > max). */
  predicate WithinBounds(students: seq<Student>, minStudents: int, maxStudents: int) {
    |students| >= minStudents && (|students| <= maxStudents || |students| == BlankCount(minStudents))
  }

  /** When the minimum is not negative and not above the maximum, the invariant is
      exactly `min <= length <= max`. */
  lemma WithinBoundsMeans(students: seq<Student>, minStudents: int, maxStudents: int)
    requires 0 <= minStudents <= maxStudents
    ensures WithinBounds(students, minStudents, maxStudents)
        <==> minStudents <= |students| <= maxStudents
  {
  }

  /** The initial roster satisfies the invariant, whatever the bounds. */
  lemma BlanksWithinBounds(minStudents: int, maxStudents: int)
    ensures WithinBounds(Blanks(minStudents), minStudents, maxStudents)
  {
  }

  // ---------------------------------------------------------------- addStudent

  /** The roster after pressing "add": unchanged at or above the maximum, otherwise one
      blank entry more at the end. */
  function Grown(students: seq<Student>, maxStudents: int): (r: seq<Student>)
    ensures |students| >= maxStudents ==> r == students
    ensures |students| < maxStudents ==> r == Added(students, Blank)
    ensures |students| <= maxStudents ==> |r| <= maxStudents
    ensures r[..|students|] == students
  {
    if |students| >= maxStudents then students else Added(students, Blank)
  }

  /** The roster after pressing "add" `n` times. */
  function GrownTimes(students: seq<Student>, maxStudents: int, n: nat): seq<Student>
    decreases n
  {
    if n == 0 then students else GrownTimes(Grown(students, maxStudents), maxStudents, n - 1)
  }

  /** However often "add" is pressed, a roster not above the maximum gains entries until
      it reaches the maximum and then stops. */
  lemma {:induction false} GrownTimesLength(students: seq<Student>, maxStudents: int, n: nat)
    requires |students| <= maxStudents
    ensures |GrownTimes(students, maxStudents, n)| == Min(|students| + n, maxStudents)
    decreases n
  {
    if n > 0 {
      GrownTimesLength(Grown(students, maxStudents), maxStudents, n - 1);
    }
  }

  /** Starting from the initial roster with 0 <= min <= max, pressing "add" any number of
      times never makes the roster longer than the maximum. */
  lemma RepeatedAddsStayBelowMax(minStudents: int, maxStudents: int, n: nat)
    requires 0 <= minStudents <= maxStudents
    ensures minStudents <= |GrownTimes(Blanks(minStudents), maxStudents, n)| <= maxStudents
  {
    GrownTimesLength(Blanks(minStudents), maxStudents, n);
  }

  // ---------------------------------------------------------------- the component

  /** The effect that runs when the project is loaded. */
  method Initialise(state: StudentState, project: FormProject)
    modifies state
    ensures state.students == Blanks(project.minStudents)
    ensures WithinBounds(state.students, project.minStudents, project.maxStudents)
  {
    state.students := Blanks(project.minStudents);
  }

  /** The "add a student" button; `refused` is the alert about the maximum. */
  method AddStudent(state: StudentState, project: FormProject) returns (refused: bool)
    modifies state
    ensures refused <==> |old(state.students)| >= project.maxStudents
    ensures state.students == Grown(old(state.students), project.maxStudents)
    ensures WithinBounds(old(state.students), project.minStudents, project.maxStudents)
        ==> WithinBounds(state.students, project.minStudents, project.maxStudents)
  {
    if |state.students| >= project.maxStudents {
      return true;
    }
    state.students := Added(state.students, Blank);
    refused := false;
  }

  /** The request `groupService.createGroup` sends. */
  datatype CreateGroupRequest = CreateGroupRequest(
    token: string, projectId: int, uniqueKey: string, students: seq<Student>)

  /** Submitting the form. `sent` is the create requested from `groupService.createGroup`,
      which fetches a CSRF token before it posts, so a requested create may never reach
      the server; `accepted` is the answer to it, if one is requested. Without a token or a project key the form only alerts; the service refuses a
      falsy project id before sending. The roster is reset only after a created group. */
  method Submit(state: StudentState, project: FormProject, token: Option<string>, accepted: bool)
    returns (sent: Option<CreateGroupRequest>)
    modifies state
    ensures sent.Some? <==> Truthy(token) && Truthy(project.uniqueKey) && project.id != 0
    ensures sent.Some? ==>
      sent.value == CreateGroupRequest(token.value, project.id, project.uniqueKey.value, old(state.students))
    ensures state.students == if sent.Some? && accepted then Blanks(project.minStudents)
                              else old(state.students)
  {
    if !Truthy(token) {
      return None;
    }
    if !Truthy(project.uniqueKey) {
      return None;
    }
    if project.id == 0 {
      return None;
    }
    sent := Some(CreateGroupRequest(token.value, project.id, project.uniqueKey.value, state.students));
    if accepted {
      state.students := Blanks(project.minStudents);
    }
  }

  /** The submit as evidently intended: the key sent is the one from the page's route (the
      last segment of the shared link) rather than a field of the loaded project, which the
      server never stores. Otherwise it is the form's own submit. */
  method SubmitWithRouteKey(state: StudentState, project: FormProject, routeKey: string,
                            token: Option<string>, accepted: bool)
    returns (sent: Option<CreateGroupRequest>)
    modifies state
    ensures sent.Some? <==> Truthy(token) && routeKey != "" && project.id != 0
    ensures sent.Some? ==>
      sent.value == CreateGroupRequest(token.value, project.id, routeKey, old(state.students))
    ensures state.students == if sent.Some? && accepted then Blanks(project.minStudents)
                              else old(state.students)
  {
    sent := Submit(state, project.(uniqueKey := Some(routeKey)), token, accepted);
  }
}
