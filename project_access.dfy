/**
 * useProjectAccess: every permission of a project page, derived from the user's role
 * in the project. Owners may change the project's structure; any member may work on
 * its contents.
 */
module ProjectAccess {
  import opened Wrappers
  import opened Access

  datatype Permissions = Permissions(
    isOwner: bool, isMember: bool,
    canEditProject: bool, canDeleteProject: bool,
    canCreateCategory: bool, canEditCategory: bool, canDeleteCategory: bool,
    canCreateAlbum: bool, canEditAlbum: bool, canDeleteAlbum: bool,
    canUploadMedia: bool, canEditMedia: bool, canDeleteMedia: bool,
    canViewMembers: bool, canInviteMembers: bool, canRemoveMembers: bool)

  /** The permissions that only an owner has. */
  predicate OwnerOnly(p: Permissions) {
    p.canEditProject || p.canDeleteProject || p.canDeleteCategory || p.canInviteMembers || p.canRemoveMembers
  }

  /** The permissions every member has. */
  predicate MemberWide(p: Permissions) {
    && p.canCreateCategory && p.canEditCategory && p.canCreateAlbum && p.canEditAlbum && p.canDeleteAlbum
    && p.canUploadMedia && p.canEditMedia && p.canDeleteMedia && p.canViewMembers
  }

  /** The derivation from the role: owner-only actions follow `isOwner`, the rest `isMember`. */
  function Derive(role: Option<ProjectRole>): (p: Permissions)
    ensures p.isOwner <==> role == Some(Owner)
    ensures p.isMember <==> role.Some?
    ensures p.canEditProject == p.isOwner && p.canDeleteProject == p.isOwner && p.canDeleteCategory == p.isOwner
    ensures p.canInviteMembers == p.isOwner && p.canRemoveMembers == p.isOwner
    ensures p.canCreateCategory == p.isMember && p.canEditCategory == p.isMember
    ensures p.canCreateAlbum == p.isMember && p.canEditAlbum == p.isMember && p.canDeleteAlbum == p.isMember
    ensures p.canUploadMedia == p.isMember && p.canEditMedia == p.isMember && p.canDeleteMedia == p.isMember
    ensures p.canViewMembers == p.isMember
    ensures OwnerOnly(p) ==> p.isMember && MemberWide(p)
    ensures role.None? ==> !p.isMember && !OwnerOnly(p) && !p.canUploadMedia && !p.canViewMembers
  {
    var isOwner := role == Some(Owner);
    var isMember := role != None;
    Permissions(isOwner, isMember,
                isOwner, isOwner,
                isMember, isMember, isOwner,
                isMember, isMember, isMember,
                isMember, isMember, isMember,
                isMember, isOwner, isOwner)
  }

  /** The permissions for a project, from the current memberships. */
  function UseProjectAccess(memberships: seq<Membership>, projectId: string): (p: Permissions)
    ensures p.isMember <==> HasProjectAccess(memberships, projectId)
    ensures p.isOwner <==> IsProjectOwner(memberships, projectId)
  {
    Derive(GetProjectRole(memberships, projectId))
  }

  /**
   * The roles are ordered: an owner has every permission, a member exactly the
   * member-wide ones, no role nothing; anything owner-only implies membership.
   */
  lemma RolesAreOrdered(role: Option<ProjectRole>)
    ensures OwnerOnly(Derive(role)) ==> Derive(role).isMember && MemberWide(Derive(role))
    ensures role == Some(Owner) ==> OwnerOnly(Derive(role)) && MemberWide(Derive(role))
    ensures role == Some(Member) ==> !OwnerOnly(Derive(role)) && MemberWide(Derive(role))
    ensures role.None? ==> Derive(role) == Permissions(false, false, false, false, false, false, false, false, false, false,
                                                       false, false, false, false, false, false)
  {
  }

  /** Without a membership of the project nothing is permitted. */
  lemma NoMembershipNoPermission(memberships: seq<Membership>, projectId: string)
    requires forall k :: 0 <= k < |memberships| ==> memberships[k].projectId != projectId
    ensures !UseProjectAccess(memberships, projectId).isMember && !OwnerOnly(UseProjectAccess(memberships, projectId))
    ensures !UseProjectAccess(memberships, projectId).canUploadMedia && !UseProjectAccess(memberships, projectId).canViewMembers
  {
  }
}
