/**
 * useUser: the development login over mock data. Logging in installs the mock user and
 * the mock memberships, logging out clears both; roles are looked up like in the
 * access state.
 */
module UserSession {
  import opened Wrappers
  import opened Access

  datatype User = User(id: string, name: string, email: string, loginMethod: string)

  const MOCK_USER: User := User("user-1", "Lukáš", "lukas@example.com", "google")

  const MOCK_MEMBERSHIPS: seq<Membership> := [Membership("1", Owner), Membership("2", Member)]

  /** The shared `user` state. */
  class UserState {
    var user: Option<User>
    var memberships: seq<Membership>

    constructor ()
      ensures user.None? && memberships == []
      ensures !IsLoggedIn()
    {
      user := None;
      memberships := [];
    }

    /** isLoggedIn: a user is set. */
    function IsLoggedIn(): (b: bool)
      reads this
      ensures b <==> user.Some?
    {
      user != None
    }

    method Login()
      modifies this
      ensures user == Some(MOCK_USER) && memberships == MOCK_MEMBERSHIPS
      ensures IsLoggedIn()
    {
      user := Some(MOCK_USER);
      memberships := MOCK_MEMBERSHIPS;
    }

    method Logout()
      modifies this
      ensures user.None? && memberships == []
      ensures !IsLoggedIn()
    {
      user := None;
      memberships := [];
    }

    /** getProjectRole over this state's memberships: the first match, or null. */
    function GetProjectRole(projectId: string): (r: Option<ProjectRole>)
      reads this
      ensures r.None? <==> forall k :: 0 <= k < |memberships| ==> memberships[k].projectId != projectId
      ensures r.Some? ==> exists k :: 0 <= k < |memberships| && memberships[k] == Membership(projectId, r.value)
    {
      Access.GetProjectRole(memberships, projectId)
    }
  }

  /** After login the user owns project "1", is a member of project "2", and has no other project. */
  lemma RolesAfterLogin(projectId: string)
    ensures Access.GetProjectRole(MOCK_MEMBERSHIPS, "1") == Some(Owner)
    ensures Access.GetProjectRole(MOCK_MEMBERSHIPS, "2") == Some(Member)
    ensures projectId != "1" && projectId != "2" ==> Access.GetProjectRole(MOCK_MEMBERSHIPS, projectId).None?
  {
    assert MOCK_MEMBERSHIPS[1..] == [Membership("2", Member)];
    assert "1" != "2";
  }

  /** After logout no project has a role. */
  lemma NoRoleAfterLogout(projectId: string)
    ensures Access.GetProjectRole([], projectId).None?
  {
  }
}
