/** Permission masks and who holds them
    (backend/services/community-service/permissions.go). A mask is the set of its one bits,
    so that `|` is union and a non-zero `&` is a common bit. */
module Permissions {
  type Mask = set<nat>

  const Administrator: Mask := {0}
  const ManageCommunity: Mask := {1}
  const ManageChannels: Mask := {2}
  const ManageRoles: Mask := {3}
  const KickMembers: Mask := {4}
  const BanMembers: Mask := {5}
  const ManageMessages: Mask := {6}
  const SendMessages: Mask := {7}
  const ReadMessages: Mask := {8}
  const AttachFiles: Mask := {9}
  const AllPermissions: Mask :=
    Administrator + ManageCommunity + ManageChannels + ManageRoles + KickMembers + BanMembers +
    ManageMessages + SendMessages + ReadMessages + AttachFiles

  predicate Shares(a: Mask, b: Mask) { a * b != {} }

  predicate HasPermission(computed: Mask, required: Mask) {
    Shares(computed, Administrator) || Shares(computed, required)
  }

  /** The owner, or someone with a role that is Administrator or shares a bit with what is
      required. */
  ghost predicate Holds(user: int, roles: seq<Mask>, owner: int, required: Mask) {
    user == owner || exists role :: role in roles && HasPermission(role, required)
  }

  function UnionOf(roles: seq<Mask>): Mask {
    if roles == [] then {} else UnionOf(roles[..|roles|-1]) + roles[|roles|-1]
  }

  ghost predicate SomeAdministrator(roles: seq<Mask>) {
    exists role :: role in roles && Shares(role, Administrator)
  }

  ghost function Effective(user: int, roles: seq<Mask>, owner: int): Mask {
    if user == owner || SomeAdministrator(roles) then AllPermissions else UnionOf(roles)
  }

  method ComputePermissions(user: int, roles: seq<Mask>, owner: int) returns (perms: Mask)
    ensures perms == Effective(user, roles, owner)
  {
    if user == owner {
      return AllPermissions;
    }
    perms := {};
    for i := 0 to |roles|
      invariant perms == UnionOf(roles[..i]) && !SomeAdministrator(roles[..i])
    {
      assert roles[..i+1][..i] == roles[..i];
      perms := perms + roles[i];
      if Shares(roles[i], Administrator) {
        assert roles[i] in roles;
        return AllPermissions;
      }
    }
    assert roles[..|roles|] == roles;
  }

  lemma SharesUnion(a: Mask, b: Mask, required: Mask)
    ensures Shares(a + b, required) <==> Shares(a, required) || Shares(b, required)
  {
    assert (a + b) * required == (a * required) + (b * required);
    if Shares(a, required) {
      var bit :| bit in a * required;
      assert bit in (a + b) * required;
    }
    if Shares(b, required) {
      var bit :| bit in b * required;
      assert bit in (a + b) * required;
    }
  }

  lemma {:induction false} UnionShares(roles: seq<Mask>, required: Mask)
    ensures Shares(UnionOf(roles), required) <==> exists role :: role in roles && Shares(role, required)
  {
    if roles == [] {
      assert UnionOf(roles) * required == {};
    } else {
      var init, last := roles[..|roles|-1], roles[|roles|-1];
      UnionShares(init, required);
      SharesUnion(UnionOf(init), last, required);
      assert roles == init + [last];
    }
  }

  /** What the loop computes grants exactly what the owner rule or some role grants. */
  lemma EffectiveHolds(user: int, roles: seq<Mask>, owner: int, required: Mask)
    ensures HasPermission(Effective(user, roles, owner), required) <==> Holds(user, roles, owner, required)
  {
    UnionShares(roles, Administrator);
    UnionShares(roles, required);
    assert 0 in AllPermissions * Administrator;
  }

  /** The order in which roles are listed makes no difference. */
  lemma OrderIsIrrelevant(user: int, roles: seq<Mask>, others: seq<Mask>, owner: int, required: Mask)
    requires forall m :: m in roles <==> m in others
    ensures HasPermission(Effective(user, roles, owner), required) <==>
            HasPermission(Effective(user, others, owner), required)
  {
    EffectiveHolds(user, roles, owner, required);
    EffectiveHolds(user, others, owner, required);
  }
}
