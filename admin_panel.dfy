/** The administration screen: granting or revoking a user's access to a
    project, merging an edit into the matching profile of the list shown,
    and the guard and record of a new project. The remote profile and
    project writes are parameters: the list changes only when the write
    succeeds. */
module AdminPanel {
  import opened Types
  import opened Lists

  /** The fields an edit of a profile may carry (`Partial<UserProfile>`
      as the screen uses it: the role, or the assigned projects). */
  datatype ProfilePatch = ProfilePatch(role: Option<Role>, assignedProjectIds: Option<seq<string>>)

  function Other(projectId: string): string -> bool {
    (id: string) => id != projectId
  }

  /** `user.assigned_project_ids || []`. */
  function CurrentIds(ids: Option<seq<string>>): seq<string> {
    if ids.Some? then ids.value else []
  }

  /** The new list `handleToggleProjectAccess` writes: every occurrence of
      the project removed when it is there, otherwise the project appended. */
  function Toggle(ids: Option<seq<string>>, projectId: string): (toggled: seq<string>)
    ensures projectId in toggled <==> projectId !in CurrentIds(ids)
  {
    var current := CurrentIds(ids);
    FilterMembers(current, Other(projectId));
    if projectId in current then Filter(current, Other(projectId)) else current + [projectId]
  }

  /** `{ ...u, ...updates }`. */
  function Merge(u: Profile, patch: ProfilePatch): Profile {
    u.(role := if patch.role.Some? then patch.role.value else u.role,
       assignedProjectIds := if patch.assignedProjectIds.Some? then Some(patch.assignedProjectIds.value)
                             else u.assignedProjectIds)
  }

  /** `users.map(u => u.id === userId ? { ...u, ...updates } : u)`. */
  function MergeInto(users: seq<Profile>, userId: string, patch: ProfilePatch): (merged: seq<Profile>)
    ensures |merged| == |users| && forall i :: 0 <= i < |users| ==> merged[i].id == users[i].id
  {
    seq(|users|, i requires 0 <= i < |users| => if users[i].id == userId then Merge(users[i], patch) else users[i])
  }

  /** `handleUpdateUser`: the list after the remote write, unchanged when
      the write fails. */
  function UpdateUsers(users: seq<Profile>, userId: string, patch: ProfilePatch, writeSucceeds: bool): (updated: seq<Profile>)
    ensures |updated| == |users| && forall i :: 0 <= i < |users| ==> updated[i].id == users[i].id
  {
    if writeSucceeds then MergeInto(users, userId, patch) else users
  }

  /** The toggle as an edit of the user's profile. */
  function ToggleAccess(users: seq<Profile>, user: Profile, projectId: string, writeSucceeds: bool): seq<Profile> {
    UpdateUsers(users, user.id, ProfilePatch(None, Some(Toggle(user.assignedProjectIds, projectId))), writeSucceeds)
  }

  /** `handleCreateProject`: nothing without a name and a location,
      otherwise the project `proj-<milliseconds>`. */
  function CreateProject(name: string, location: string, millis: nat): (created: Option<Project>)
    ensures created.Some? <==> Truthy(name) && Truthy(location)
    ensures created.Some? ==>
      created.value.name == name && created.value.location == location && "proj-" <= created.value.id
  {
    if !Truthy(name) || !Truthy(location) then None
    else Some(Project("proj-" + Decimal(millis), name, location))
  }

  // ---------------------------------------------------------------------
  // Properties of the screen

  /** The toggle flips the project's membership and keeps every other id. */
  lemma ToggleMembership(ids: Option<seq<string>>, projectId: string)
    ensures projectId in Toggle(ids, projectId) <==> projectId !in CurrentIds(ids)
    ensures forall id :: id != projectId ==> (id in Toggle(ids, projectId) <==> id in CurrentIds(ids))
  {
    FilterMembers(CurrentIds(ids), Other(projectId));
  }

  /** The other ids stay in their original order: dropping the project
      from the old and from the new list gives the same list. */
  lemma ToggleKeepsOthers(ids: Option<seq<string>>, projectId: string)
    ensures Filter(Toggle(ids, projectId), Other(projectId)) == Filter(CurrentIds(ids), Other(projectId))
  {
    var current := CurrentIds(ids);
    var other := Other(projectId);
    if projectId in current {
      FilterTwice(current, other, other, other);
    } else {
      FilterAppend(current, [projectId], other);
      assert [projectId][1..] == [];
      assert Filter([projectId], other) == [] + Filter([projectId][1..], other);
    }
  }

  /** A project that was missing is appended at the end; a present one
      disappears entirely. */
  lemma ToggleShape(ids: Option<seq<string>>, projectId: string)
    ensures projectId !in CurrentIds(ids) ==> Toggle(ids, projectId) == CurrentIds(ids) + [projectId]
    ensures projectId in CurrentIds(ids) ==>
      |Toggle(ids, projectId)| < |CurrentIds(ids)| && projectId !in Toggle(ids, projectId)
  {
    var current := CurrentIds(ids);
    FilterMembers(current, Other(projectId));
    if projectId in current {
      FilterDrops(current, Other(projectId), projectId);
    }
  }

  /** Granting and then revoking access restores the list. */
  lemma ToggleTwice(ids: Option<seq<string>>, projectId: string)
    requires projectId !in CurrentIds(ids)
    ensures Toggle(Some(Toggle(ids, projectId)), projectId) == CurrentIds(ids)
  {
    var current := CurrentIds(ids);
    var other := Other(projectId);
    FilterAppend(current, [projectId], other);
    assert [projectId][1..] == [];
    assert Filter([projectId], other) == [] + Filter([projectId][1..], other);
    FilterAll(current, other);
  }

  /** A missing list is an empty one: access to the project is granted. */
  lemma ToggleMissingList(projectId: string)
    ensures Toggle(None, projectId) == [projectId]
  {
  }

  /** The edit reaches every profile with the id and no other; the merged
      profiles keep their identity and take the patched fields. */
  lemma MergeIntoEffect(users: seq<Profile>, userId: string, patch: ProfilePatch)
    ensures var us := MergeInto(users, userId, patch);
      |us| == |users|
      && forall i :: 0 <= i < |users| ==>
        (users[i].id != userId ==> us[i] == users[i])
        && (users[i].id == userId ==>
              us[i].id == users[i].id && us[i].email == users[i].email && us[i].fullName == users[i].fullName
              && (patch.role.Some? ==> us[i].role == patch.role.value)
              && (patch.role.None? ==> us[i].role == users[i].role)
              && (patch.assignedProjectIds.Some? ==> us[i].assignedProjectIds == patch.assignedProjectIds)
              && (patch.assignedProjectIds.None? ==> us[i].assignedProjectIds == users[i].assignedProjectIds))
  {
  }

  /** A user with no matching id leaves the list as it was, and so does a
      failed write. */
  lemma UpdateUsersUnchanged(users: seq<Profile>, userId: string, patch: ProfilePatch, writeSucceeds: bool)
    requires !writeSucceeds || forall i :: 0 <= i < |users| ==> users[i].id != userId
    ensures UpdateUsers(users, userId, patch, writeSucceeds) == users
  {
  }

  /** After a successful toggle, the user's listed profile holds the
      toggled access and everyone else is untouched. */
  lemma ToggleAccessEffect(users: seq<Profile>, user: Profile, projectId: string, i: nat)
    requires i < |users|
    ensures var us := ToggleAccess(users, user, projectId, true);
      |us| == |users|
      && (users[i].id == user.id ==>
            us[i].assignedProjectIds.Some?
            && (projectId in us[i].assignedProjectIds.value <==> projectId !in CurrentIds(user.assignedProjectIds)))
      && (users[i].id != user.id ==> us[i] == users[i])
  {
    ToggleMembership(user.assignedProjectIds, projectId);
  }

  /** A project is created exactly when both fields are filled, with the
      fields given and an id of the form `proj-<digits>`. */
  lemma CreateProjectEffect(name: string, location: string, millis: nat)
    ensures CreateProject(name, location, millis).Some? <==> name != "" && location != ""
    ensures CreateProject(name, location, millis).Some? ==>
      var p := CreateProject(name, location, millis).value;
      p.name == name && p.location == location
      && |p.id| > 5 && p.id[..5] == "proj-"
      && forall k :: 5 <= k < |p.id| ==> '0' <= p.id[k] <= '9'
  {
  }

  /** Projects created at different instants get different ids. */
  lemma CreateProjectDistinctIds(name: string, location: string, m1: nat, m2: nat)
    requires CreateProject(name, location, m1).Some? && m1 != m2
    ensures CreateProject(name, location, m1).value.id != CreateProject(name, location, m2).value.id
  {
    DecimalInjective(m1, m2);
    var a := "proj-" + Decimal(m1);
    var b := "proj-" + Decimal(m2);
    assert a[5..] == Decimal(m1) && b[5..] == Decimal(m2);
  }
}
