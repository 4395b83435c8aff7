/**
 * The user directory: the `users` collection, filled by invitation
 * (`addUser`, which refuses a second user with the same email) and on sign-in
 * (`addUserOnLogin`, keyed by the identity's uid).
 */
module UserService {
  import opened Wrappers
  import opened Types
  import opened Strings

  /** The `users` collection: document id to user. Every user is stored under its own id. */
  class UserCollection {
    var users: map<string, User>

    ghost predicate Valid()
      reads this
    {
      forall k :: k in users ==> users[k].id == k
    }

    constructor ()
      ensures Valid() && users == map[]
    {
      users := map[];
    }
  }

  /** `name || email.split('@')[0]`: the given name, or the email's local part when it is empty. */
  function NameFor(given: string, email: string): (name: string)
    ensures given != "" ==> name == given
    ensures given == "" ==> '@' !in name && StartsWith(email, name)
                            && (|name| == |email| || email[|name|] == '@')
  {
    if given != "" then given else Before(email, '@')
  }

  /**
   * `(name.split(' ')[0][0] || '') + (name.split(' ')[1]?.[0] || '')`: the first
   * character of the first space-separated token and of the second one.
   */
  function Initials(name: string): (r: string)
    ensures |r| <= 2
  {
    var tokens := Split(name, ' ');
    FirstChar(tokens[0]) + (if |tokens| > 1 then FirstChar(tokens[1]) else "")
  }

  /** A one-word name gives its first letter. */
  lemma InitialsOfOneWord(word: string)
    requires word != "" && ' ' !in word
    ensures Initials(word) == [word[0]]
  {
    assert Find(word, ' ') == |word|;
  }

  /** An empty name has no initials. */
  lemma InitialsOfEmpty()
    ensures Initials("") == ""
  {
    assert Split("", ' ') == [""];
  }

  /** A leading space makes the first token empty, so only the word's letter remains. */
  lemma InitialsAfterLeadingSpace(word: string)
    requires word != "" && ' ' !in word
    ensures Initials(" " + word) == [word[0]]
  {
    var s := " " + word;
    assert Find(s, ' ') == 0;
    assert s[1..] == word;
    assert Find(word, ' ') == |word|;
    assert Split(s, ' ') == [""] + Split(word, ' ');
    assert Split(word, ' ') == [word];
  }

  /** A doubled space makes the second token empty, so only the first word's letter remains. */
  lemma InitialsWithDoubledSpace(first: string, second: string)
    requires first != "" && ' ' !in first
    ensures Initials(first + "  " + second) == [first[0]]
  {
    var s := first + "  " + second;
    var rest := s[|first| + 1..];
    assert Find(s, ' ') == |first| by {
      assert forall j :: 0 <= j < |first| ==> s[j] == first[j];
      assert s[|first|] == ' ';
    }
    assert rest == " " + second;
    assert Find(rest, ' ') == 0;
    SplitAtFirst(s, ' ');
    SplitAtFirst(rest, ' ');
    assert Split(s, ' ')[0] == first;
    assert Split(s, ' ')[1] == "";
  }

  /** Two or more words separated by single spaces give the first letters of the first two. */
  lemma InitialsOfWords(words: seq<string>)
    requires |words| >= 2
    requires forall k :: 0 <= k < |words| ==> words[k] != "" && ' ' !in words[k]
    ensures Initials(Join(words, ' ')) == [words[0][0], words[1][0]]
  {
    SplitJoin(words, ' ');
  }

  function PlaceholderAvatar(name: string): string
  {
    "https://picsum.photos/seed/" + name + "/200"
  }

  predicate EmailTaken(users: map<string, User>, email: string)
  {
    exists id :: id in users && users[id].email == email
  }

  /** The user `addUser` creates under the generated document id. */
  function InvitedUser(id: string, name: string, email: string): (u: User)
    ensures u.id == id && u.email == email && u.name == NameFor(name, email)
    ensures u.avatarUrl == PlaceholderAvatar(u.name) && u.initials == Initials(u.name)
  {
    var n := NameFor(name, email);
    User(id, n, email, PlaceholderAvatar(n), Initials(n))
  }

  /** The result and the directory after `addUser`. */
  function AddUserResult(users: map<string, User>, name: string, email: string, newId: string)
    : (r: (Result<User>, map<string, User>))
    ensures EmailTaken(users, email) ==> r == (Err("A user with this email already exists."), users)
    ensures !EmailTaken(users, email) ==>
      r.0 == Ok(InvitedUser(newId, name, email)) && r.1 == users[newId := r.0.value]
  {
    if EmailTaken(users, email) then (Err("A user with this email already exists."), users)
    else
      var u := InvitedUser(newId, name, email);
      (Ok(u), users[newId := u])
  }

  /** Inviting the same email twice: the second call fails and the directory keeps one user. */
  lemma SecondInviteWithSameEmailFails(users: map<string, User>, name1: string, name2: string,
                                       email: string, id1: string, id2: string)
    requires id1 !in users
    ensures var (r1, after1) := AddUserResult(users, name1, email, id1);
            var (r2, after2) := AddUserResult(after1, name2, email, id2);
            r2 == Err("A user with this email already exists.") && after2 == after1
            && |after1| == |users| + (if r1.Ok? then 1 else 0)
  {
    var (r1, after1) := AddUserResult(users, name1, email, id1);
    if r1.Ok? {
      assert after1[id1].email == email;
    }
  }

  /** `addUser`: the generated document id `newId` is fresh. */
  method AddUser(db: UserCollection, name: string, email: string, newId: string) returns (r: Result<User>)
    requires db.Valid() && newId !in db.users
    modifies db
    ensures db.Valid()
    ensures (r, db.users) == AddUserResult(old(db.users), name, email, newId)
  {
    if exists id :: id in db.users && db.users[id].email == email {
      return Err("A user with this email already exists.");
    }
    var n := if name != "" then name else Before(email, '@');
    var u := User(newId, n, email, "https://picsum.photos/seed/" + n + "/200", Initials(n));
    db.users := db.users[newId := u];
    r := Ok(u);
  }

  /** `getUsers()`: every stored user once; `[]` when the collection is empty or the read fails. */
  method GetUsers(db: UserCollection, storeFails: bool) returns (r: seq<User>)
    requires db.Valid()
    ensures storeFails || db.users == map[] ==> r == []
    ensures !storeFails ==> |r| == |db.users|
    ensures forall i :: 0 <= i < |r| ==> r[i].id in db.users && db.users[r[i].id] == r[i]
    ensures !storeFails ==> forall id :: id in db.users ==> exists i :: 0 <= i < |r| && r[i].id == id
    ensures forall i, j :: 0 <= i < j < |r| ==> r[i].id != r[j].id
  {
    r := [];
    if storeFails {
      return;
    }
    var remaining := db.users.Keys;
    while remaining != {}
      invariant Scanned(db.users, r, remaining)
      decreases |remaining|
    {
      var id :| id in remaining;
      ScanStep(db.users, r, remaining, id);
      r := r + [db.users[id]];
      remaining := remaining - {id};
    }
  }

  /** The ids of a list of users. */
  function UserIds(users: seq<User>): set<string>
  {
    set i | 0 <= i < |users| :: users[i].id
  }

  lemma UserIdsSnoc(users: seq<User>, u: User)
    ensures UserIds(users + [u]) == UserIds(users) + {u.id}
  {
    var extended := users + [u];
    assert extended[|users|].id == u.id;
    forall id | id in UserIds(users)
      ensures id in UserIds(extended)
    {
      var i :| 0 <= i < |users| && users[i].id == id;
      assert extended[i].id == id;
    }
  }

  /**
   * The scan's invariant: `r` lists, once each, the stored users whose ids
   * are no longer in `remaining`.
   */
  ghost predicate Scanned(users: map<string, User>, r: seq<User>, remaining: set<string>)
  {
    && remaining <= users.Keys
    && |r| + |remaining| == |users|
    && (forall i :: 0 <= i < |r| ==> r[i].id in users && r[i].id !in remaining && users[r[i].id] == r[i])
    && (forall id :: id in users && id !in remaining ==> id in UserIds(r))
    && (forall i, j :: 0 <= i < j < |r| ==> r[i].id != r[j].id)
  }

  /** Listing one more remaining user keeps the invariant. */
  lemma ScanStep(users: map<string, User>, r: seq<User>, remaining: set<string>, id: string)
    requires Scanned(users, r, remaining) && id in remaining
    requires forall k :: k in users ==> users[k].id == k
    ensures Scanned(users, r + [users[id]], remaining - {id})
  {
    var u := users[id];
    var extended := r + [u];
    var left := remaining - {id};
    UserIdsSnoc(r, u);
    assert |left| == |remaining| - 1;
    forall i | 0 <= i < |extended|
      ensures extended[i].id in users && extended[i].id !in left && users[extended[i].id] == extended[i]
    {
      if i < |r| {
        assert extended[i] == r[i];
      }
    }
    forall i, j | 0 <= i < j < |extended|
      ensures extended[i].id != extended[j].id
    {
      assert extended[i] == r[i];
      if j < |r| {
        assert extended[j] == r[j];
      }
    }
  }

  /** The user `addUserOnLogin` synthesises from a signed-in identity with an email. */
  function LoginUser(identity: AuthUser): (u: User)
    requires Truthy(identity.email)
    ensures u.id == identity.uid && u.email == identity.email.value
    ensures u.name == NameFor(identity.displayName.GetOr(""), identity.email.value)
    ensures u.avatarUrl == if Truthy(identity.photoURL) then identity.photoURL.value else PlaceholderAvatar(u.name)
    ensures u.initials == Initials(u.name)
  {
    var name := if Truthy(identity.displayName) then identity.displayName.value
                else Before(identity.email.value, '@');
    var avatar := if Truthy(identity.photoURL) then identity.photoURL.value else PlaceholderAvatar(name);
    User(identity.uid, name, identity.email.value, avatar, Initials(name))
  }

  /** The directory after `addUserOnLogin`: unchanged when the uid is known or the email missing. */
  function AfterLogin(users: map<string, User>, identity: AuthUser): (r: map<string, User>)
    ensures identity.uid in users || !Truthy(identity.email) ==> r == users
    ensures identity.uid !in users && Truthy(identity.email) ==>
      r.Keys == users.Keys + {identity.uid} && r[identity.uid] == LoginUser(identity)
      && forall k :: k in users ==> r[k] == users[k]
  {
    if identity.uid in users || !Truthy(identity.email) then users
    else users[identity.uid := LoginUser(identity)]
  }

  /** Signing in twice is signing in once. */
  lemma LoginIdempotent(users: map<string, User>, identity: AuthUser)
    ensures AfterLogin(AfterLogin(users, identity), identity) == AfterLogin(users, identity)
  {
  }

  /**
   * Only the uid is checked: an identity whose email some other record already
   * has still gets a record, so two records share the email.
   */
  lemma LoginMayDuplicateEmail(users: map<string, User>, identity: AuthUser, other: string)
    requires Truthy(identity.email) && identity.uid !in users
    requires other in users && users[other].email == identity.email.value
    ensures var after := AfterLogin(users, identity);
            other != identity.uid && other in after && identity.uid in after
            && after[other].email == after[identity.uid].email
  {
  }

  method AddUserOnLogin(db: UserCollection, identity: AuthUser)
    requires db.Valid()
    modifies db
    ensures db.Valid()
    ensures db.users == AfterLogin(old(db.users), identity)
  {
    if identity.uid !in db.users && Truthy(identity.email) {
      db.users := db.users[identity.uid := LoginUser(identity)];
    }
  }
}
