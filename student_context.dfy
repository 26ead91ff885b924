/** The shared roster of students being entered on the client, and the functional updaters
    that the provider hands out (each replaces the list by a new one). */
module StudentContext {
  import opened Js

  /** A roster entry as the client holds it. */
  datatype Student = Student(id: Option<int>, fullName: string, githubUsername: string)

  /** The two editable fields of an entry. */
  datatype Field = FullName | GithubUsername

  /** An entry with empty name and username, as the form creates them. */
  const Blank: Student := Student(None, "", "")

  /** The provider's state: the current roster. */
  class StudentState {
    var students: seq<Student>

    constructor ()
      ensures students == []
    {
      students := [];
    }
  }

  // ---------------------------------------------------------------- addStudent

  /** `prev => [...prev, student]`. */
  function Added(students: seq<Student>, student: Student): (r: seq<Student>)
    ensures |r| == |students| + 1
    ensures r[..|students|] == students && r[|students|] == student
  {
    students + [student]
  }

  // ---------------------------------------------------------------- removeStudent

  /** `filter((_, i) => i !== index)` on the entries that sit at positions `from`,
      `from + 1`, ... of the whole list. */
  function DropPosition(students: seq<Student>, index: int, from: int): (r: seq<Student>)
    ensures from <= index < from + |students| ==>
      r == students[..index - from] + students[index - from + 1..]
    ensures !(from <= index < from + |students|) ==> r == students
  {
    if students == [] then []
    else (if from == index then [] else [students[0]]) + DropPosition(students[1..], index, from + 1)
  }

  /** `prev => prev.filter((_, i) => i !== index)`: the entry at `index` is removed and the
      others keep their order; an index outside the list removes nothing. */
  function Removed(students: seq<Student>, index: int): (r: seq<Student>)
    ensures 0 <= index < |students| ==> |r| == |students| - 1
    ensures 0 <= index < |students| ==> forall k :: 0 <= k < |r| ==>
      r[k] == (if k < index then students[k] else students[k + 1])
    ensures !(0 <= index < |students|) ==> r == students
  {
    DropPosition(students, index, 0)
  }

  // ---------------------------------------------------------------- updateStudent

  /** The value of field `f` of an entry. */
  function FieldOf(s: Student, f: Field): string {
    match f
    case FullName => s.fullName
    case GithubUsername => s.githubUsername
  }

  /** `{ ...s, [f]: value }`: the entry with field `f` set, its other field and id kept. */
  function WithField(s: Student, f: Field, value: string): (r: Student)
    ensures FieldOf(r, f) == value
    ensures forall g :: g != f ==> FieldOf(r, g) == FieldOf(s, g)
    ensures r.id == s.id
  {
    match f
    case FullName => s.(fullName := value)
    case GithubUsername => s.(githubUsername := value)
  }

  /** The list with field `f` of entry `index` set; every other entry is kept. */
  function Updated(students: seq<Student>, index: int, f: Field, value: string): (r: seq<Student>)
    requires 0 <= index < |students|
    ensures |r| == |students|
    ensures FieldOf(r[index], f) == value && r[index].id == students[index].id
    ensures forall g :: g != f ==> FieldOf(r[index], g) == FieldOf(students[index], g)
    ensures forall j :: 0 <= j < |r| && j != index ==> r[j] == students[j]
  {
    students[index := WithField(students[index], f, value)]
  }

  // ---------------------------------------------------------------- clearStudents

  /** `setStudents([])`. */
  function Cleared(): (r: seq<Student>)
    ensures |r| == 0
  {
    []
  }

  // ---------------------------------------------------------------- syncStudents

  /** The synchronisation request sent for the current roster. */
  datatype SyncRequest = SyncRequest(token: string, projectId: int, students: seq<Student>)

  /** `syncStudents`: nothing is sent without a token; otherwise the whole current roster
      is sent for `projectId` with the token. */
  function SyncCall(token: Option<string>, projectId: int, students: seq<Student>): (r: Option<SyncRequest>)
    ensures r.None? <==> !Truthy(token)
    ensures r.Some? ==> r.value.token == token.value && r.value.projectId == projectId
    ensures r.Some? ==> r.value.students == students
  {
    if !Truthy(token) then None else Some(SyncRequest(token.value, projectId, students))
  }
}
