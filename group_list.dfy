/** The instructor's list of a project's groups: whether it loads at all, what it shows
    when there is nothing, and the fill status of each group. */
module GroupList {
  import opened Js
  import opened StudentContext
  import opened GroupContext

  /** The fill status of one group: `full` colours the counter, `missing` is the
      "(Encore n requis)" notice, absent when not displayed. */
  datatype Fill = Fill(current: nat, full: bool, missing: Option<int>)

  function FillOf(current: nat, minStudents: int, maxStudents: int): (r: Fill)
    ensures r.current == current
    ensures r.full <==> current >= maxStudents
    ensures r.missing.Some? <==> current < minStudents
    ensures r.missing.Some? ==> r.missing.value == minStudents - current && r.missing.value >= 1
  {
    var missing := minStudents - current;
    Fill(current, current >= maxStudents, if current < minStudents then Some(missing) else None)
  }

  /** One rendered group card. */
  datatype Card = Card(name: Option<string>, students: seq<Student>, fill: Fill)

  function CardOf(g: Group, minStudents: int, maxStudents: int): Card {
    Card(g.name, g.students, FillOf(|g.students|, minStudents, maxStudents))
  }

  /** `groups.map(group => ...)`. */
  function Cards(groups: seq<Group>, minStudents: int, maxStudents: int): (r: seq<Card>)
    ensures |r| == |groups|
    ensures forall i :: 0 <= i < |groups| ==> r[i] == CardOf(groups[i], minStudents, maxStudents)
  {
    if groups == [] then [] else [CardOf(groups[0], minStudents, maxStudents)] + Cards(groups[1..], minStudents, maxStudents)
  }

  /** What the component renders. */
  datatype View = Nothing | Spinner | NoGroupsMessage | GroupCards(cards: seq<Card>)

  /** The effect's guard `!projectId || isNaN(Number(projectId))`: loading happens only
      for a truthy number. */
  predicate ShouldFetch(projectId: Option<Number>) {
    !(projectId.None? || (projectId.value.Finite? && projectId.value.v == 0) || projectId.value.NaN?)
  }

  /** A project id that is absent, 0 or NaN triggers no load. */
  lemma ShouldFetchIffTruthy(projectId: Option<Number>)
    ensures ShouldFetch(projectId) <==> TruthyNumber(projectId)
  {
  }

  /** The rendered view. `groups` is None when the cached value is not an array. */
  function Render(projectId: Option<Number>, loading: bool, groups: Option<seq<Group>>,
                  minStudents: int, maxStudents: int): (v: View)
    ensures !TruthyNumber(projectId) ==> v == Nothing
    ensures TruthyNumber(projectId) && loading ==> v == Spinner
    ensures TruthyNumber(projectId) && !loading && (groups.None? || groups.value == []) ==> v == NoGroupsMessage
    ensures TruthyNumber(projectId) && !loading && groups.Some? && groups.value != [] ==>
      && v.GroupCards?
      && |v.cards| == |groups.value|
      && forall i :: 0 <= i < |groups.value| ==>
           v.cards[i].name == groups.value[i].name
           && v.cards[i].fill == FillOf(|groups.value[i].students|, minStudents, maxStudents)
  {
    if !TruthyNumber(projectId) then Nothing
    else if loading then Spinner
    else if groups.None? || groups.value == [] then NoGroupsMessage
    else GroupCards(Cards(groups.value, minStudents, maxStudents))
  }
}
