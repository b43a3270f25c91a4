/**
 * Collection permission resolution (the `useCollectivePermissions` hook).
 *
 * For each requested collection id the hook looks the collection up, finds
 * the current user's membership record, discards a record that grants no
 * capability at all, and overwrites its `permissions` state with `true` for
 * the owner, or with the membership record (possibly undefined) otherwise.
 */
module Permissions {
  import opened Js

  datatype Member = Member(userId: int, canCreate: bool, canUpdate: bool, canDelete: bool)

  datatype Collection = Collection(id: int, ownerId: int, members: seq<Member>)

  /** The hook's `Member | true | undefined` value. */
  datatype Permission = FullAccess | MemberAccess(member: Member) | NoAccess

  /** `permissions === true || permissions?.canUpdate`: the gate the link views use. */
  predicate CanUpdate(p: Permission) {
    p.FullAccess? || (p.MemberAccess? && p.member.canUpdate)
  }

  /** A membership record that grants none of the three capabilities. */
  predicate Powerless(m: Member) {
    !m.canCreate && !m.canUpdate && !m.canDelete
  }

  /** `collections.find((e) => e.id === collectionId)`: the first collection with that id. */
  function FindCollection(collections: seq<Collection>, id: int): (r: Option<Collection>)
    ensures r.Some? ==> r.value in collections && r.value.id == id
    ensures r.None? <==> forall c :: c in collections ==> c.id != id
  {
    if collections == [] then None
    else if collections[0].id == id then Some(collections[0])
    else FindCollection(collections[1..], id)
  }

  /** `members.find((e) => e.userId === user?.id)`: with no signed-in user nothing matches. */
  function FindMember(members: seq<Member>, user: Option<int>): (r: Option<Member>)
    ensures r.Some? ==> r.value in members && user == Some(r.value.userId)
    ensures r.None? <==> user.None? || forall m :: m in members ==> m.userId != user.value
  {
    if user.None? || members == [] then None
    else if members[0].userId == user.value then Some(members[0])
    else FindMember(members[1..], user)
  }

  /** The value the hook stores for one matched collection. */
  function PermissionFor(c: Collection, user: Option<int>): (p: Permission)
    ensures user == Some(c.ownerId) ==> p == FullAccess
    ensures user != Some(c.ownerId) ==> !p.FullAccess?
    ensures p.MemberAccess? ==> p.member in c.members && user == Some(p.member.userId) && !Powerless(p.member)
    ensures user != Some(c.ownerId) && p.NoAccess? ==>
              FindMember(c.members, user).None? || Powerless(FindMember(c.members, user).value)
  {
    var found := FindMember(c.members, user);
    var member := if found.Some? && Powerless(found.value) then None else found;
    if user == Some(c.ownerId) then FullAccess
    else if member.Some? then MemberAccess(member.value)
    else NoAccess
  }

  /** One iteration of the loop: an id with no collection leaves the value alone. */
  function Step(p: Permission, collections: seq<Collection>, user: Option<int>, id: int): (r: Permission)
    ensures !Matches(collections, id) ==> r == p
    ensures Matches(collections, id) ==> r == PermissionFor(FindCollection(collections, id).value, user)
  {
    match FindCollection(collections, id)
    case None => p
    case Some(c) => PermissionFor(c, user)
  }

  /** The value after the loop has visited `ids` in order, starting from `prior`. */
  function Resolved(prior: Permission, ids: seq<int>, collections: seq<Collection>, user: Option<int>): (r: Permission)
    ensures r == prior
            || exists i :: 0 <= i < |ids| && Matches(collections, ids[i])
                           && r == PermissionFor(FindCollection(collections, ids[i]).value, user)
    decreases |ids|
  {
    if ids == [] then prior
    else
      var init := ids[..|ids| - 1];
      var before := Resolved(prior, init, collections, user);
      assert forall i :: 0 <= i < |init| ==> init[i] == ids[i];
      Step(before, collections, user, ids[|ids| - 1])
  }

  predicate Matches(collections: seq<Collection>, id: int) {
    FindCollection(collections, id).Some?
  }

  /** When no requested id names a known collection the state keeps its prior value. */
  lemma {:induction false} NoMatchKeepsPrior(prior: Permission, ids: seq<int>, collections: seq<Collection>, user: Option<int>)
    requires forall i :: 0 <= i < |ids| ==> !Matches(collections, ids[i])
    ensures Resolved(prior, ids, collections, user) == prior
    decreases |ids|
  {
    if ids != [] {
      NoMatchKeepsPrior(prior, ids[..|ids| - 1], collections, user);
    }
  }

  /** Ids after the last matching one change nothing. */
  lemma {:induction false} UnmatchedSuffixKeeps(prior: Permission, ids: seq<int>, rest: seq<int>,
                                                collections: seq<Collection>, user: Option<int>)
    requires forall i :: 0 <= i < |rest| ==> !Matches(collections, rest[i])
    ensures Resolved(prior, ids + rest, collections, user) == Resolved(prior, ids, collections, user)
    decreases |rest|
  {
    if rest == [] {
      assert ids + rest == ids;
    } else {
      var init := rest[..|rest| - 1];
      assert (ids + rest)[..|ids + rest| - 1] == ids + init;
      assert (ids + rest)[|ids + rest| - 1] == rest[|rest| - 1];
      assert !Matches(collections, rest[|rest| - 1]);
      UnmatchedSuffixKeeps(prior, ids, init, collections, user);
    }
  }

  /** The last requested id that names a known collection decides the result. */
  lemma LastMatchWins(prior: Permission, ids: seq<int>, k: nat, collections: seq<Collection>, user: Option<int>)
    requires k < |ids| && Matches(collections, ids[k])
    requires forall i :: k < i < |ids| ==> !Matches(collections, ids[i])
    ensures Resolved(prior, ids, collections, user)
            == PermissionFor(FindCollection(collections, ids[k]).value, user)
  {
    var rest := ids[k + 1..];
    assert ids == ids[..k + 1] + rest;
    forall i | 0 <= i < |rest| ensures !Matches(collections, rest[i]) {
      assert rest[i] == ids[k + 1 + i];
    }
    UnmatchedSuffixKeeps(prior, ids[..k + 1], rest, collections, user);
    assert ids[..k + 1][..k] == ids[..k];
  }

  /** The hook's state: the last permission value it stored. */
  class CollectivePermissions {
    var permissions: Permission

    constructor ()
      ensures permissions == NoAccess
    {
      permissions := NoAccess;
    }

    /** The effect body: visit the ids in order, overwriting the state on every match. */
    method RunEffect(collectionIds: seq<int>, collections: seq<Collection>, user: Option<int>)
      modifies this
      ensures permissions == Resolved(old(permissions), collectionIds, collections, user)
    {
      ghost var prior := permissions;
      for i := 0 to |collectionIds|
        invariant permissions == Resolved(prior, collectionIds[..i], collections, user)
      {
        var collection := FindCollection(collections, collectionIds[i]);
        if collection.Some? {
          var getPermission := FindMember(collection.value.members, user);
          if getPermission.Some? && Powerless(getPermission.value) {
            getPermission := None;
          }
          permissions := if user == Some(collection.value.ownerId) then FullAccess
                         else if getPermission.Some? then MemberAccess(getPermission.value)
                         else NoAccess;
        }
        assert collectionIds[..i + 1][..i] == collectionIds[..i];
      }
      assert collectionIds[..|collectionIds|] == collectionIds;
    }
  }
}
