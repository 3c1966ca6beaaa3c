/** The signed-in user of the whole application (contexts/AuthContext.tsx):
    citizens sign in with an Aadhaar number found in the user list, the
    police with one fixed officer id and password; signing out forgets the
    user.  Keeping the user in session storage is not modelled: the page
    starts from whatever user was stored. */
module Auth {
  import opened Common
  import opened Text

  datatype UserType = CitizenUser | PoliceUser

  datatype User = User(id: string, kind: UserType, name: string, email: string, imageUrl: string)

  /** `a || b` on an optional string: the default also replaces "". */
  function OrElse(s: Option<string>, default: string): string {
    if s.Some? && s.value != [] then s.value else default
  }

  function UserName(user: Option<User>): Option<string> {
    if user.Some? then Some(user.value.name) else None
  }

  function UserEmail(user: Option<User>): Option<string> {
    if user.Some? then Some(user.value.email) else None
  }

  function UserImageUrl(user: Option<User>): Option<string> {
    if user.Some? then Some(user.value.imageUrl) else None
  }

  /** The known users (data/users.ts). */
  const DummyUsers: seq<User> := [
    User("111122223333", CitizenUser, "Aarav Sharma", "aarav.sharma@example.com", "https://i.pravatar.cc/150?u=aarav"),
    User("444455556666", CitizenUser, "Priya Patel", "priya.patel@example.com", "https://i.pravatar.cc/150?u=priya"),
    User("777788889999", CitizenUser, "Rohan Gupta", "rohan.gupta@example.com", "https://i.pravatar.cc/150?u=rohan"),
    User("123412341234", CitizenUser, "Anika Singh", "anika.singh@example.com", "https://i.pravatar.cc/150?u=anika"),
    User("123456789012", CitizenUser, "Citizen User", "citizen@example.com", "https://picsum.photos/100")
  ]

  const OfficerId := "POLICE007"
  const OfficerPassword := "password123"

  /** `users.find(u => u.id === aadhaar && u.type === 'citizen')`. */
  function FindCitizen(users: seq<User>, aadhaar: string): (r: Option<User>)
    ensures r.Some? ==> r.value in users && r.value.id == aadhaar && r.value.kind == CitizenUser
    ensures r.None? <==> forall i :: 0 <= i < |users| ==> !(users[i].id == aadhaar && users[i].kind == CitizenUser)
  {
    if users == [] then None
    else if users[0].id == aadhaar && users[0].kind == CitizenUser then Some(users[0])
    else
      var rest := FindCitizen(users[1..], aadhaar);
      assert forall i :: 1 <= i < |users| ==> users[i] == users[1..][i - 1];
      rest
  }

  /** The officer check: id trimmed and upper-cased, password trimmed and
      present. */
  predicate PoliceCredentialsOk(officerId: string, password: Option<string>) {
    ToUpper(Trim(officerId)) == OfficerId && password.Some? && Trim(password.value) == OfficerPassword
  }

  /** The user a successful officer sign-in creates: the id is trimmed but
      keeps its case. */
  function OfficerUser(officerId: string): User {
    User(Trim(officerId), PoliceUser, "Officer Smith", "officer.smith@police.gov",
         "https://i.pravatar.cc/150?u=" + Trim(officerId))
  }

  class AuthSession {
    var user: Option<User>

    constructor(stored: Option<User>)
      ensures user == stored
    {
      user := stored;
    }

    /** `isAuthenticated`. */
    function IsAuthenticated(): bool
      reads this
    {
      user.Some?
    }

    /** `login(aadhaar)`: signs in the citizen with exactly that id. */
    method Login(aadhaar: string) returns (ok: bool)
      modifies this
      ensures ok <==> exists i :: 0 <= i < |DummyUsers| && DummyUsers[i].id == aadhaar && DummyUsers[i].kind == CitizenUser
      ensures ok ==> user == FindCitizen(DummyUsers, aadhaar) && IsAuthenticated() && user.value.id == aadhaar
      ensures !ok ==> user == old(user)
    {
      var found := FindCitizen(DummyUsers, aadhaar);
      if found.Some? {
        user := found;
        ok := true;
      } else {
        ok := false;
      }
    }

    /** `policeLogin(officerId, password)`. */
    method PoliceLogin(officerId: string, password: Option<string>) returns (ok: bool)
      modifies this
      ensures ok <==> PoliceCredentialsOk(officerId, password)
      ensures ok ==> user == Some(OfficerUser(officerId)) && IsAuthenticated()
      ensures !ok ==> user == old(user)
    {
      if PoliceCredentialsOk(officerId, password) {
        user := Some(OfficerUser(officerId));
        ok := true;
      } else {
        ok := false;
      }
    }

    /** `logout()`. */
    method Logout()
      modifies this
      ensures user == None && !IsAuthenticated()
    {
      user := None;
    }
  }

  /** The demo citizen signs in with the id "123456789012". */
  lemma KnownCitizenFound()
    ensures FindCitizen(DummyUsers, "123456789012") == Some(DummyUsers[4])
  {
    assert DummyUsers[4].id == "123456789012";
    assert DummyUsers[0].id[0] == '1' && DummyUsers[0].id[1] == '1';
    assert DummyUsers[1].id[0] == '4';
    assert DummyUsers[2].id[0] == '7';
    assert DummyUsers[3].id[4] == '1';
  }

  /** A sign-in without a password is refused whatever the id. */
  lemma PoliceLoginNeedsPassword(officerId: string)
    ensures !PoliceCredentialsOk(officerId, None)
  {
  }

  lemma OfficerIdUpper()
    ensures ToUpper("police007") == OfficerId
  {
  }

  /** The id is compared without regard to case or surrounding white space,
      the password without regard to surrounding white space, and the
      signed-in officer keeps the id as typed, trimmed. */
  lemma PoliceLoginLenient(id: string, before: string, after: string, pwBefore: string, pwAfter: string)
    requires IsTrimmedWord(id) && ToUpper(id) == OfficerId
    requires IsBlank(before) && IsBlank(after) && IsBlank(pwBefore) && IsBlank(pwAfter)
    ensures PoliceCredentialsOk(before + id + after, Some(pwBefore + OfficerPassword + pwAfter))
    ensures OfficerUser(before + id + after).id == id
  {
    TrimBlankPadding(before, id, after);
    assert OfficerPassword[0] == 'p' && OfficerPassword[|OfficerPassword| - 1] == '3';
    TrimBlankPadding(pwBefore, OfficerPassword, pwAfter);
  }
}
