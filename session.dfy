/**
 * The acting-user snapshot the kanban board and the three forms build from
 * the signed-in identity before they call a service.
 */
module Session {
  import opened Wrappers
  import opened Types
  import opened Strings

  /**
   * `{ id: uid, name: displayName || 'Anonymous', avatarUrl: photoURL || '',
   *    initials: displayName ? displayName.charAt(0) : 'A' }`.
   * The source object has no email; the model's snapshot carries "".
   */
  function CurrentUser(u: AuthUser): (actor: User)
    ensures actor.id == u.uid && actor.email == ""
    ensures actor.name != "" && |actor.initials| == 1
    ensures actor.initials == FirstChar(actor.name) || (actor.name == "Anonymous" && actor.initials == "A")
    ensures Truthy(u.displayName) ==> actor.name == u.displayName.value && actor.initials == FirstChar(actor.name)
    ensures !Truthy(u.displayName) ==> actor.name == "Anonymous" && actor.initials == "A"
    ensures actor.avatarUrl == u.photoURL.GetOr("")
  {
    var named := Truthy(u.displayName);
    User(u.uid,
         if named then u.displayName.value else "Anonymous",
         "",
         u.photoURL.GetOr(""),
         if named then [u.displayName.value[0]] else "A")
  }

  /** `teamMembers.find(m => m.id === id)`: the first member with that id. */
  function FindMember(members: seq<User>, id: string): (r: Option<User>)
    ensures r.Some? <==> exists i :: 0 <= i < |members| && members[i].id == id
    ensures r.Some? ==> r.value.id == id
    ensures r.Some? ==>
      exists i :: 0 <= i < |members| && members[i] == r.value && forall j :: 0 <= j < i ==> members[j].id != id
  {
    if members == [] then None
    else if members[0].id == id then Some(members[0])
    else
      var r := FindMember(members[1..], id);
      assert forall i :: 1 <= i < |members| ==> members[i] == members[1..][i - 1];
      r
  }

  /**
   * The assignee both task forms resolve from the picked id:
   * `assigneeId ? teamMembers.find(m => m.id === assigneeId) || null : null`.
   */
  function ResolveAssignee(members: seq<User>, assigneeId: Option<string>): (a: Option<User>)
    ensures a.None? <==> !Truthy(assigneeId) || forall i :: 0 <= i < |members| ==> members[i].id != assigneeId.value
    ensures a.Some? ==> a == FindMember(members, assigneeId.value) && a.value in members
  {
    if Truthy(assigneeId) then FindMember(members, assigneeId.value) else None
  }
}
