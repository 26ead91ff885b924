/** The client's cached list of a project's groups and the guarded operations that load,
    extend, shrink and clear it. Server answers are parameters: `None` stands for a
    request that failed. */
module GroupContext {
  import opened Js
  import opened StudentContext

  /** A group as the client receives it; `id` and `name` may be absent. */
  datatype Group = Group(id: Option<int>, name: Option<string>, projectId: int, students: seq<Student>)

  /** `g.id !== groupId`: a group without an id is always kept. */
  predicate Keeps(g: Group, groupId: int) {
    g.id != Some(groupId)
  }

  /** `groups.filter(g => g.id !== groupId)`. */
  function WithoutGroup(groups: seq<Group>, groupId: int): (r: seq<Group>)
    ensures |r| <= |groups|
    ensures forall g :: g in r <==> g in groups && Keeps(g, groupId)
  {
    if groups == [] then []
    else (if Keeps(groups[0], groupId) then [groups[0]] else []) + WithoutGroup(groups[1..], groupId)
  }

  /** Filtering distributes over concatenation, so the kept groups stay in their order. */
  lemma {:induction false} WithoutGroupConcat(a: seq<Group>, b: seq<Group>, groupId: int)
    ensures WithoutGroup(a + b, groupId) == WithoutGroup(a, groupId) + WithoutGroup(b, groupId)
    decreases |a|
  {
    if a == [] {
      assert a + b == b;
    } else {
      assert (a + b)[1..] == a[1..] + b;
      WithoutGroupConcat(a[1..], b, groupId);
    }
  }

  /** Deleting an id that no cached group has leaves the list as it is. */
  lemma {:induction false} WithoutAbsentGroup(groups: seq<Group>, groupId: int)
    requires forall i :: 0 <= i < |groups| ==> Keeps(groups[i], groupId)
    ensures WithoutGroup(groups, groupId) == groups
    decreases |groups|
  {
    if groups != [] {
      WithoutAbsentGroup(groups[1..], groupId);
    }
  }

  /** Deleting the same id twice is the same as deleting it once. */
  lemma WithoutGroupIdempotent(groups: seq<Group>, groupId: int)
    ensures WithoutGroup(WithoutGroup(groups, groupId), groupId) == WithoutGroup(groups, groupId)
  {
    var once := WithoutGroup(groups, groupId);
    forall i | 0 <= i < |once| ensures Keeps(once[i], groupId) {
      assert once[i] in once;
    }
    WithoutAbsentGroup(once, groupId);
  }

  /** The provider's state. */
  class GroupState {
    var groups: seq<Group>

    constructor ()
      ensures groups == []
    {
      groups := [];
    }
  }

  /** `fetchGroups(projectId)`: with a token and a truthy project id, a successful request
      replaces the list; otherwise, or when the request fails, nothing changes. */
  method FetchGroups(state: GroupState, token: Option<string>, projectId: int,
                     response: Option<seq<Group>>)
    modifies state
    ensures state.groups ==
      if Truthy(token) && projectId != 0 && response.Some? then response.value else old(state.groups)
  {
    if !Truthy(token) || projectId == 0 {
      return;
    }
    if response.Some? {
      state.groups := response.value;
    }
  }

  /** `createGroup(projectId, uniqueKey, students)`: with a token, a truthy project id and
      a key, the created group the server returns is appended; a failure is swallowed. */
  method CreateGroup(state: GroupState, token: Option<string>, projectId: int, uniqueKey: string,
                     response: Option<Group>)
    modifies state
    ensures state.groups ==
      if Truthy(token) && projectId != 0 && uniqueKey != "" && response.Some?
      then old(state.groups) + [response.value]
      else old(state.groups)
  {
    if !Truthy(token) || projectId == 0 || uniqueKey == "" {
      return;
    }
    if response.Some? {
      state.groups := state.groups + [response.value];
    }
  }

  /** `deleteGroup(groupId)`: without a token nothing happens. Otherwise the service refuses
      a falsy id before sending, and the server may refuse (`accepted` false); either error
      is rethrown and the list is kept. On success every group with that id is dropped. */
  method DeleteGroup(state: GroupState, token: Option<string>, groupId: int, accepted: bool)
    returns (thrown: bool)
    modifies state
    ensures thrown <==> Truthy(token) && (groupId == 0 || !accepted)
    ensures state.groups ==
      if Truthy(token) && groupId != 0 && accepted then WithoutGroup(old(state.groups), groupId)
      else old(state.groups)
  {
    if !Truthy(token) {
      return false;
    }
    if groupId == 0 || !accepted {
      return true;
    }
    state.groups := WithoutGroup(state.groups, groupId);
    thrown := false;
  }

  /** `clearGroups()`. */
  method ClearGroups(state: GroupState)
    modifies state
    ensures state.groups == []
  {
    state.groups := [];
  }
}
