/** One card of the registration form: it edits a field of its entry and removes its entry,
    never going below the project's minimum. Together with the form's "add" bound this keeps
    the roster within the project's bounds. */
module StudentCard {
  import opened Js
  import opened StudentContext
  import opened GroupForm

  /** Typing into one of the card's two text fields. Writing a field of the entry at a
      position the roster does not have reads `undefined` and throws a TypeError before
      the roster is set. */
  method HandleChange(state: StudentState, index: int, field: Field, value: string)
    returns (threw: bool)
    modifies state
    ensures threw <==> !(0 <= index < |old(state.students)|)
    ensures threw ==> state.students == old(state.students)
    ensures !threw ==> state.students == Updated(old(state.students), index, field, value)
  {
    if !(0 <= index < |state.students|) {
      return true;
    }
    state.students := Updated(state.students, index, field, value);
    threw := false;
  }

  /** The roster after pressing the card's "remove": unchanged at or below the minimum,
      otherwise without entry `index`. */
  function Shrunk(students: seq<Student>, minStudents: int, index: int): (r: seq<Student>)
    ensures |students| <= minStudents ==> r == students
    ensures |students| > minStudents ==> r == Removed(students, index)
    ensures |students| > minStudents && 0 <= index < |students| ==>
      |r| == |students| - 1 && |r| >= minStudents
  {
    if |students| <= minStudents then students else Removed(students, index)
  }

  /** The card's "remove" button; `refused` is the alert about the minimum. */
  method RemoveStudent(state: StudentState, project: FormProject, index: int) returns (refused: bool)
    modifies state
    ensures refused <==> |old(state.students)| <= project.minStudents
    ensures state.students == Shrunk(old(state.students), project.minStudents, index)
  {
    if |state.students| <= project.minStudents {
      return true;
    }
    state.students := Removed(state.students, index);
    refused := false;
  }

  // ---------------------------------------------------------------- the roster invariant

  /** What a user can do to the roster of the form: add an entry, remove or edit the entry
      of a rendered card, or submit with the group created. */
  datatype Edit = Add | Remove(index: int) | Change(index: int, field: Field, value: string) | Created

  /** The roster after one edit. A change addressed to a position without a card does nothing. */
  function Apply(students: seq<Student>, project: FormProject, e: Edit): seq<Student> {
    match e
    case Add => Grown(students, project.maxStudents)
    case Remove(i) => Shrunk(students, project.minStudents, i)
    case Change(i, f, v) => if 0 <= i < |students| then Updated(students, i, f, v) else students
    case Created => Blanks(project.minStudents)
  }

  /** The roster after a sequence of edits, first to last. */
  function ApplyAll(students: seq<Student>, project: FormProject, edits: seq<Edit>): seq<Student>
    decreases |edits|
  {
    if edits == [] then students else ApplyAll(Apply(students, project, edits[0]), project, edits[1..])
  }

  /** Every edit keeps the length invariant. */
  lemma ApplyKeepsBounds(students: seq<Student>, project: FormProject, e: Edit)
    requires WithinBounds(students, project.minStudents, project.maxStudents)
    ensures WithinBounds(Apply(students, project, e), project.minStudents, project.maxStudents)
  {
    match e
    case Add =>
    case Remove(i) =>
    case Change(i, f, v) =>
    case Created => BlanksWithinBounds(project.minStudents, project.maxStudents);
  }

  /** Any sequence of edits keeps the length invariant. */
  lemma {:induction false} ApplyAllKeepsBounds(students: seq<Student>, project: FormProject, edits: seq<Edit>)
    requires WithinBounds(students, project.minStudents, project.maxStudents)
    ensures WithinBounds(ApplyAll(students, project, edits), project.minStudents, project.maxStudents)
    decreases |edits|
  {
    if edits != [] {
      ApplyKeepsBounds(students, project, edits[0]);
      ApplyAllKeepsBounds(Apply(students, project, edits[0]), project, edits[1..]);
    }
  }

  /** Once initialised for a project with 0 <= min <= max, the roster length stays between
      min and max whatever the user does. */
  lemma RosterStaysWithinBounds(project: FormProject, edits: seq<Edit>)
    requires 0 <= project.minStudents <= project.maxStudents
    ensures project.minStudents <= |ApplyAll(Blanks(project.minStudents), project, edits)|
                                 <= project.maxStudents
  {
    BlanksWithinBounds(project.minStudents, project.maxStudents);
    ApplyAllKeepsBounds(Blanks(project.minStudents), project, edits);
    WithinBoundsMeans(ApplyAll(Blanks(project.minStudents), project, edits),
                      project.minStudents, project.maxStudents);
  }
}
