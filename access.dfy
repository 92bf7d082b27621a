/**
 * The client's project memberships: the shared access state, its refresh when the
 * login state changes, and the role lookups every permission is derived from. The
 * login flag and the memberships endpoint's answer are parameters.
 */
module Access {
  import opened Wrappers
  import opened Effects

  datatype ProjectRole = Owner | Member

  datatype Membership = Membership(projectId: string, role: ProjectRole)

  /** The index of the first membership of the project (`find`). */
  function FirstMembership(memberships: seq<Membership>, projectId: string): (r: Option<nat>)
    ensures r.None? <==> forall k :: 0 <= k < |memberships| ==> memberships[k].projectId != projectId
    ensures r.Some? ==> r.value < |memberships| && memberships[r.value].projectId == projectId
    ensures r.Some? ==> forall k :: 0 <= k < r.value ==> memberships[k].projectId != projectId
  {
    if memberships == [] then None
    else if memberships[0].projectId == projectId then Some(0)
    else
      var rest := FirstMembership(memberships[1..], projectId);
      if rest.Some? then Some(rest.value + 1) else None
  }

  /** getProjectRole: the role of the first membership of the project, or null. */
  function GetProjectRole(memberships: seq<Membership>, projectId: string): (r: Option<ProjectRole>)
    ensures r.None? <==> forall k :: 0 <= k < |memberships| ==> memberships[k].projectId != projectId
    ensures r.Some? ==> exists k :: 0 <= k < |memberships| && memberships[k] == Membership(projectId, r.value)
  {
    var i := FirstMembership(memberships, projectId);
    if i.Some? then Some(memberships[i.value].role) else None
  }

  /** hasProjectAccess: some membership names the project. */
  function HasProjectAccess(memberships: seq<Membership>, projectId: string): (b: bool)
    ensures b <==> exists k :: 0 <= k < |memberships| && memberships[k].projectId == projectId
    ensures b <==> GetProjectRole(memberships, projectId).Some?
  {
    GetProjectRole(memberships, projectId) != None
  }

  /** isProjectOwner: the first membership of the project is an owner's. */
  function IsProjectOwner(memberships: seq<Membership>, projectId: string): (b: bool)
    ensures b ==> HasProjectAccess(memberships, projectId)
    ensures b <==> GetProjectRole(memberships, projectId) == Some(Owner)
  {
    GetProjectRole(memberships, projectId) == Some(Owner)
  }

  /** The first membership decides: a later one for the same project is never consulted. */
  lemma FirstMembershipDecides(memberships: seq<Membership>, later: seq<Membership>, projectId: string)
    requires GetProjectRole(memberships, projectId).Some?
    ensures GetProjectRole(memberships + later, projectId) == GetProjectRole(memberships, projectId)
  {
    var i := FirstMembership(memberships, projectId).value;
    assert (memberships + later)[i] == memberships[i];
    assert forall k :: 0 <= k < i ==> (memberships + later)[k] == memberships[k];
  }

  /** The shared `access` state. */
  class AccessState {
    var memberships: seq<Membership>
    var loading: bool

    constructor ()
      ensures memberships == [] && !loading
    {
      memberships := [];
      loading := false;
    }

    /**
     * fetchMemberships: logged out, the list is emptied at once; logged in, it becomes
     * the endpoint's answer, or empty when the request fails, and loading ends false.
     */
    method FetchMemberships(loggedIn: bool, fetched: Result<seq<Membership>, Thrown>)
      modifies this
      ensures !loggedIn ==> memberships == [] && loading == old(loading)
      ensures loggedIn ==> memberships == (if fetched.Ok? then fetched.value else []) && !loading
    {
      if !loggedIn {
        memberships := [];
        return;
      }
      loading := true;
      if fetched.Ok? {
        memberships := fetched.value;
      } else {
        memberships := [];
      }
      loading := false;
    }

    /** The login watcher: a login refetches, a logout clears the list. */
    method OnLoginChange(loggedIn: bool, fetched: Result<seq<Membership>, Thrown>)
      modifies this
      ensures loggedIn ==> memberships == (if fetched.Ok? then fetched.value else []) && !loading
      ensures !loggedIn ==> memberships == [] && loading == old(loading)
    {
      if loggedIn {
        FetchMemberships(loggedIn, fetched);
      } else {
        memberships := [];
      }
    }
  }

  /** After a logout, or a failed fetch, no project is accessible. */
  lemma EmptyMembershipsGrantNothing(projectId: string)
    ensures GetProjectRole([], projectId).None?
    ensures !HasProjectAccess([], projectId) && !IsProjectOwner([], projectId)
  {
  }
}
