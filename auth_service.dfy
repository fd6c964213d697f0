/** Accounts: sign-up, sign-in and sign-out against the user list and the
    separate password table, and the technician sign-up that also registers
    a technician profile. */
module AuthService {
  import opened Wrappers
  import opened Seqs
  import opened Types
  import opened AppStore
  import TechService

  datatype SignupData = SignupData(
    name: string,
    email: string,
    phone: string,
    password: string,
    role: UserRole,
    cluster: string)

  datatype AuthError = DuplicateEmail | NoAccount | IncorrectPassword

  /** The message shown for each failure. */
  function ErrorMessage(e: AuthError): (m: string)
    ensures |m| > 0
  {
    match e
    case DuplicateEmail => "An account with this email already exists"
    case NoAccount => "No account found with this email"
    case IncorrectPassword => "Incorrect password"
  }

  /** The three failures are told apart by their messages. */
  lemma ErrorMessagesDistinct(a: AuthError, b: AuthError)
    ensures ErrorMessage(a) == ErrorMessage(b) ==> a == b
  {
    if a != b {
      var ma, mb := ErrorMessage(a), ErrorMessage(b);
      assert ma[0] != mb[0];
    }
  }

  /** The users and the password table, which `signup` changes together. */
  datatype Accounts = Accounts(users: seq<User>, passwords: map<string, string>)

  /** The predicate `u.email === email`. */
  function HasEmail(email: string): User -> bool {
    (u: User) => u.email == email
  }

  /** `users.find((u) => u.email === email)`: the first user with the
      address. */
  function FindUserByEmail(users: seq<User>, email: string): (r: Option<User>)
    ensures r.None? <==> forall u :: u in users ==> u.email != email
    ensures r.Some? ==> r.value in users && r.value.email == email
    ensures r.Some? ==> exists i :: 0 <= i < |users| && users[i] == r.value &&
                                   forall k :: 0 <= k < i ==> users[k].email != email
  {
    Find(users, HasEmail(email))
  }

  /** No two users share an e-mail address. */
  predicate EmailsUnique(users: seq<User>) {
    forall i, j :: 0 <= i < j < |users| ==> users[i].email != users[j].email
  }

  /** The outcome of `login`: the account with the e-mail when its stored
      password equals the one given; a missing password entry never matches. */
  function Authenticate(acc: Accounts, email: string, password: string): (r: Result<User, AuthError>)
    ensures r == Err(NoAccount) <==> forall u :: u in acc.users ==> u.email != email
    ensures r == Err(IncorrectPassword) <==>
              (exists u :: u in acc.users && u.email == email) &&
              !(email in acc.passwords && acc.passwords[email] == password)
    ensures r.Ok? ==> r.value in acc.users && r.value.email == email &&
                      email in acc.passwords && acc.passwords[email] == password
    ensures r.Ok? ==> exists i :: 0 <= i < |acc.users| && acc.users[i] == r.value &&
                                 forall k :: 0 <= k < i ==> acc.users[k].email != email
  {
    match FindUserByEmail(acc.users, email)
    case None => Err(NoAccount)
    case Some(u) =>
      if email in acc.passwords && acc.passwords[email] == password then Ok(u)
      else Err(IncorrectPassword)
  }

  /** The user record `signup` creates. */
  function NewUser(data: SignupData, id: string, now: Timestamp): User {
    User(id, data.name, data.email, data.phone, data.role, data.cluster, now)
  }

  /** The accounts after `signup`: rejected when the e-mail is taken,
      otherwise one more user and the password stored under the e-mail. */
  function SignedUp(acc: Accounts, data: SignupData, id: string, now: Timestamp)
    : (r: Result<Accounts, AuthError>)
    ensures r.Err? <==> exists u :: u in acc.users && u.email == data.email
    ensures r.Err? ==> r.error == DuplicateEmail
    ensures r.Ok? ==> r.value.users == acc.users + [NewUser(data, id, now)] &&
                      r.value.passwords == acc.passwords[data.email := data.password]
  {
    if FindUserByEmail(acc.users, data.email).Some? then Err(DuplicateEmail)
    else Ok(Accounts(acc.users + [NewUser(data, id, now)], acc.passwords[data.email := data.password]))
  }

  /** Sign-up keeps e-mail addresses unique. */
  lemma SignupKeepsEmailsUnique(acc: Accounts, data: SignupData, id: string, now: Timestamp)
    requires EmailsUnique(acc.users)
    ensures SignedUp(acc, data, id, now).Ok? ==> EmailsUnique(SignedUp(acc, data, id, now).value.users)
  {
    var r := SignedUp(acc, data, id, now);
    if r.Ok? {
      var us := r.value.users;
      forall i, j | 0 <= i < j < |us| ensures us[i].email != us[j].email {
        if j == |acc.users| {
          assert us[i] in acc.users;
        } else {
          assert us[i] == acc.users[i] && us[j] == acc.users[j];
        }
      }
    }
  }

  /** Signing up and then logging in with the same e-mail and password yields
      the new user, and a second sign-up with that e-mail is rejected. */
  lemma LoginAfterSignup(acc: Accounts, data: SignupData, id: string, now: Timestamp, again: SignupData)
    requires SignedUp(acc, data, id, now).Ok?
    ensures Authenticate(SignedUp(acc, data, id, now).value, data.email, data.password) ==
            Ok(NewUser(data, id, now))
    ensures again.email == data.email ==>
              SignedUp(SignedUp(acc, data, id, now).value, again, id, now) == Err(DuplicateEmail)
  {
    var u := NewUser(data, id, now);
    FindIndexAppend(acc.users, u, HasEmail(data.email));
    assert u in acc.users + [u];
  }

  /** Signing up changes no other address's login outcome. */
  lemma SignupLeavesOtherLoginsAlone(acc: Accounts, data: SignupData, id: string, now: Timestamp,
                                     email: string, password: string)
    requires SignedUp(acc, data, id, now).Ok? && email != data.email
    ensures Authenticate(SignedUp(acc, data, id, now).value, email, password) ==
            Authenticate(acc, email, password)
  {
    FindIndexAppend(acc.users, NewUser(data, id, now), HasEmail(email));
  }

  /** `signup`: on success the new user is stored, signed in and given the
      password; on a taken e-mail nothing changes. */
  method Signup(st: Store, data: SignupData, id: string, now: Timestamp)
    returns (r: Result<User, AuthError>)
    modifies st`users, st`passwords, st`currentUser
    ensures var next := SignedUp(Accounts(old(st.users), old(st.passwords)), data, id, now);
            if next.Ok? then
              r == Ok(NewUser(data, id, now)) && st.currentUser == Some(NewUser(data, id, now)) &&
              Accounts(st.users, st.passwords) == next.value
            else
              r == Err(DuplicateEmail) && st.currentUser == old(st.currentUser) &&
              st.users == old(st.users) && st.passwords == old(st.passwords)
  {
    if FindUserByEmail(st.users, data.email).Some? {
      return Err(DuplicateEmail);
    }
    var user := NewUser(data, id, now);
    st.users := st.users + [user];
    st.currentUser := Some(user);
    st.passwords := st.passwords[data.email := data.password];
    r := Ok(user);
  }

  /** `login`: signs the matching account in; a failure changes nothing. */
  method Login(st: Store, email: string, password: string) returns (r: Result<User, AuthError>)
    modifies st`currentUser
    ensures r == Authenticate(Accounts(st.users, st.passwords), email, password)
    ensures r.Ok? ==> st.currentUser == Some(r.value)
    ensures r.Err? ==> st.currentUser == old(st.currentUser)
  {
    var user := FindUserByEmail(st.users, email);
    if user.None? {
      return Err(NoAccount);
    }
    if !(email in st.passwords && st.passwords[email] == password) {
      return Err(IncorrectPassword);
    }
    st.currentUser := Some(user.value);
    r := Ok(user.value);
  }

  /** `logout`. */
  method Logout(st: Store)
    modifies st`currentUser
    ensures st.currentUser == None
  {
    st.currentUser := None;
  }

  /** The sign-up of the account context: `signup`, then, for a technician
      account, a technician profile for the new user whose gender defaults to
      female when none was chosen. */
  method SignupAccount(st: Store, data: SignupData, gender: Option<Gender>, userId: string,
                       techId: string, now: Timestamp, techNow: Timestamp)
    returns (r: Result<User, AuthError>)
    modifies st`users, st`passwords, st`currentUser, st`technicians
    ensures var next := SignedUp(Accounts(old(st.users), old(st.passwords)), data, userId, now);
            (r.Ok? <==> next.Ok?) &&
            (next.Ok? ==> r.value == NewUser(data, userId, now) && st.currentUser == Some(r.value) &&
                          Accounts(st.users, st.passwords) == next.value)
    ensures r.Err? ==> r.error == DuplicateEmail && st.users == old(st.users) &&
                       st.passwords == old(st.passwords) && st.currentUser == old(st.currentUser)
    ensures r.Ok? && data.role == RoleTechnician ==>
              st.technicians == old(st.technicians) +
                [Technician(techId, userId, data.name, data.email, data.phone,
                            if gender.Some? then gender.value else Female,
                            data.cluster, false, 0, 0, 0, 0, 0, techNow)]
    ensures !(r.Ok? && data.role == RoleTechnician) ==> st.technicians == old(st.technicians)
  {
    r := Signup(st, data, userId, now);
    if r.Ok? && data.role == RoleTechnician {
      var g := if gender.Some? then gender.value else Female;
      var reg := TechService.RegisterTechData(r.value.id, data.name, data.email, data.phone, g, data.cluster);
      var tech := TechService.RegisterTechnician(st, reg, techId, techNow);
    }
  }
}
