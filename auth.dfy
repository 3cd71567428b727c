/** The account flows of app/auth.py: registration, login, e-mail confirmation and
    the password-reset pair. A request's form fields are parameters, the logged-in
    user is identified by id, and a redirect with a flashed message is an outcome
    value. */
module Auth {
  import opened Prelude
  import opened Crypto
  import opened Models

  const ConfirmSubject := "Confirm Your Account"
  const ConfirmTemplate := "email/confirm"
  const ResetSubject := "Reset Your Password"
  const ResetTemplate := "email/reset_password"

  const ResetSentMessage := "A password reset link has been sent to your email address."

  /** `email.split('@')[0]`: the text before the first '@', or the whole address. */
  function LocalPart(email: string): (r: string)
    ensures r <= email && '@' !in r
    ensures |r| == |email| || email[|r|] == '@'
  {
    SplitHead(email, '@');
    SplitOn(email, '@')[0]
  }

  /** An address with exactly one '@' gives back the text before it. */
  lemma LocalPartOf(name: string, domain: string)
    requires '@' !in name
    ensures LocalPart(name + "@" + domain) == name
  {
    SplitAfterField(name, '@', domain);
  }

  /** An address without '@' is its own local part. */
  lemma LocalPartWithoutAt(email: string)
    requires '@' !in email
    ensures LocalPart(email) == email
  {
    SplitNoSeparator(email, '@');
  }

  // ---------------------------------------------------------------------------
  // Login
  // ---------------------------------------------------------------------------

  /** Where a login POST redirects: back to the form with one shared message for an
      unknown address and a wrong password, else (after `login_user`) to the
      unconfirmed page or the dashboard. */
  datatype LoginOutcome = InvalidCredentials | ToUnconfirmed(userId: int) | ToDashboard(userId: int)

  predicate Credentials(us: seq<User>, email: string, h: Hasher, password: string) {
    exists i :: 0 <= i < |us| && us[i].email == email && CheckPassword(us[i], h, password)
  }

  /** `login`: succeeds exactly when the user with that address accepts the password,
      and logs in that user, sent on according to whether it is confirmed. */
  function Login(us: seq<User>, email: string, password: string, h: Hasher): (r: LoginOutcome)
    requires UniqueEmails(us)
    ensures r != InvalidCredentials <==> Credentials(us, email, h, password)
    ensures r != InvalidCredentials ==>
      exists i :: 0 <= i < |us| && us[i].email == email && us[i].id == r.userId &&
                  CheckPassword(us[i], h, password) && (r.ToDashboard? <==> us[i].confirmed)
  {
    match UserByEmail(us, email)
    case None => InvalidCredentials
    case Some(i) =>
      assert forall j :: 0 <= j < |us| && us[j].email == email ==> j == i;
      if !CheckPassword(us[i], h, password) then InvalidCredentials
      else if !us[i].confirmed then ToUnconfirmed(us[i].id)
      else ToDashboard(us[i].id)
  }

  /** A user without a password hash (one created by a social login) cannot log in
      with any password. */
  lemma PasswordlessUserCannotLogIn(us: seq<User>, i: nat, password: string, h: Hasher)
    requires UniqueEmails(us) && i < |us| && us[i].passwordHash == None
    ensures Login(us, us[i].email, password, h) == InvalidCredentials
  {
  }

  /** The row in `us` with the given address logs in with `password`. */
  lemma {:induction false} LoginFindsRow(us: seq<User>, i: nat, password: string, h: Hasher)
    requires UniqueEmails(us) && i < |us| && CheckPassword(us[i], h, password)
    ensures Login(us, us[i].email, password, h) ==
            if us[i].confirmed then ToDashboard(us[i].id) else ToUnconfirmed(us[i].id)
  {
    forall j | 0 <= j < |us| && j != i ensures us[j].email != us[i].email {
      if j < i { assert us[j].email != us[i].email; } else { assert us[i].email != us[j].email; }
    }
    FindFirstUnique(us, (u: User) => u.email == us[i].email, i);
  }

  // ---------------------------------------------------------------------------
  // Registration
  // ---------------------------------------------------------------------------

  datatype RegisterOutcome =
    | PasswordMismatch          // "Passwords do not match.", back to the form
    | EmailExists               // "Email address already exists.", back to the form
    | RegisterCommitError       // the commit raised an IntegrityError
    | Registered(userId: int, orgId: int)  // confirmation mail queued, on to login

  /** The row `register` builds: `User(email=email)` with its password set. */
  function RegisteredUser(id: int, email: string, h: Hasher, salt: string, password: string,
                          entropy: seq<byte>, now: Time): (u: User)
    requires |entropy| == ApiKeyBytes
    ensures u.id == id && u.email == email && !u.isAdmin && !u.confirmed && u.confirmedOn == None
    ensures u.apiKey == TokenHex(entropy)
    ensures SoundHasher(h) ==> CheckPassword(u, h, password)
  {
    SetPassword(NewUser(id, email, false, false, None, entropy, now), h, salt, password)
  }

  function ConfirmationMail(email: string, token: string): Mail {
    Mail(email, ConfirmSubject, ConfirmTemplate, token)
  }

  /** `register`: the password pair is compared before the address is looked up; a
      new account is the user, a personal organization "<local part>'s Team" it owns,
      and one confirmation mail carrying an 'email-confirm' token for the new id. */
  method Register(store: Store, email: string, password: string, password2: string, h: Hasher, salt: string,
                  s: Serializer, entropy: seq<byte>, now: Time) returns (r: RegisterOutcome)
    requires store.Valid() && |entropy| == ApiKeyBytes
    modifies store`users, store`organizations, store`memberships, store`nextUserId, store`nextOrgId, store`outbox
    ensures store.Valid()
    ensures password != password2 ==> r == PasswordMismatch && unchanged(store)
    ensures password == password2 && EmailTaken(old(store.users), email) ==> r == EmailExists && unchanged(store)
    ensures (password == password2 && !EmailTaken(old(store.users), email) &&
             ApiKeyTaken(old(store.users), TokenHex(entropy))) ==> r == RegisterCommitError && unchanged(store)
    ensures (password == password2 && !EmailTaken(old(store.users), email) &&
             !ApiKeyTaken(old(store.users), TokenHex(entropy))) ==>
      var uid, oid := old(store.nextUserId), old(store.nextOrgId);
      && r == Registered(uid, oid)
      && store.users == old(store.users) + [RegisteredUser(uid, email, h, salt, password, entropy, now)]
      && store.organizations == old(store.organizations) + [FreshOrganization(oid, LocalPart(email) + "'s Team", now)]
      && store.memberships == old(store.memberships) + [Membership(uid, oid, OwnerRole)]
      && store.outbox == old(store.outbox) + [ConfirmationMail(email, s.dumps(uid, ConfirmSalt, now))]
      && store.nextUserId == uid + 1 && store.nextOrgId == oid + 1
  {
    if password != password2 {
      return PasswordMismatch;
    }
    if UserByEmail(store.users, email).Some? {
      return EmailExists;
    }
    var user := RegisteredUser(store.nextUserId, email, h, salt, password, entropy, now);
    var orgName := LocalPart(email) + "'s Team";
    var orgId := store.nextOrgId;
    var committed := AddOwnedAccount(store, user, orgName, now);
    if committed == AccountRefused {
      return RegisterCommitError;
    }
    var token := s.dumps(user.id, ConfirmSalt, now);
    store.outbox := store.outbox + [ConfirmationMail(user.email, token)];
    r := Registered(user.id, orgId);
  }

  /** A freshly registered user logs in with its password and lands on the
      unconfirmed page. */
  lemma RegisteredUserLogsInUnconfirmed(us: seq<User>, nextId: int, email: string, h: Hasher, salt: string,
                                        password: string, entropy: seq<byte>, now: Time)
    requires |entropy| == ApiKeyBytes && SoundHasher(h)
    requires UsersValid(us + [RegisteredUser(nextId, email, h, salt, password, entropy, now)], nextId + 1)
    ensures Login(us + [RegisteredUser(nextId, email, h, salt, password, entropy, now)], email, password, h) ==
            ToUnconfirmed(nextId)
  {
    var us' := us + [RegisteredUser(nextId, email, h, salt, password, entropy, now)];
    LoginFindsRow(us', |us|, password, h);
  }

  // ---------------------------------------------------------------------------
  // Confirmation
  // ---------------------------------------------------------------------------

  datatype ConfirmOutcome = AlreadyConfirmed | ConfirmedNow | InvalidOrExpired

  /** The `confirm/<token>` route for the logged-in user `userId`: an already confirmed
      user is sent on unchanged; otherwise `User.confirm` decides and its row is saved. */
  method ConfirmAccount(store: Store, userId: int, s: Serializer, token: string, now: Time)
    returns (r: ConfirmOutcome)
    requires store.Valid() && userId in UserIds(store.users)
    modifies store`users
    ensures store.Valid()
    ensures var i := UserById(old(store.users), userId);
      && i.Some?
      && (old(store.users)[i.value].confirmed ==> r == AlreadyConfirmed && store.users == old(store.users))
      && (!old(store.users)[i.value].confirmed ==>
            var (ok, u) := Confirm(old(store.users)[i.value], s, token, now);
            (r == ConfirmedNow <==> ok) && (r == ConfirmedNow || r == InvalidOrExpired) &&
            store.users == old(store.users)[i.value := u])
  {
    var found := UserById(store.users, userId);
    var k :| 0 <= k < |store.users| && store.users[k].id == userId;
    var i := found.value;
    var user := store.users[i];
    if user.confirmed {
      return AlreadyConfirmed;
    }
    var (ok, confirmed) := Confirm(user, s, token, now);
    ReplaceUserValid(store.users, store.nextUserId, i, confirmed);
    store.users := store.users[i := confirmed];
    r := if ok then ConfirmedNow else InvalidOrExpired;
  }

  /** Once confirmed, the user's next login goes to the dashboard. */
  lemma ConfirmedUserReachesDashboard(us: seq<User>, i: nat, s: Serializer, token: string, now: Time,
                                      password: string, h: Hasher)
    requires UniqueEmails(us) && i < |us| && CheckPassword(us[i], h, password)
    requires Confirm(us[i], s, token, now).0
    ensures UniqueEmails(us[i := Confirm(us[i], s, token, now).1])
    ensures Login(us[i := Confirm(us[i], s, token, now).1], us[i].email, password, h) == ToDashboard(us[i].id)
  {
    var us' := us[i := Confirm(us[i], s, token, now).1];
    assert forall j :: 0 <= j < |us| ==> us'[j].email == us[j].email;
    LoginFindsRow(us', i, password, h);
  }

  // ---------------------------------------------------------------------------
  // Password reset
  // ---------------------------------------------------------------------------

  /** The reset mail `forgot_password` queues: one carrying a 'password-reset' token for
      the user with that address, or none when no user has it. */
  function ResetMailFor(us: seq<User>, email: string, s: Serializer, now: Time): (m: Option<Mail>)
    ensures m.Some? <==> EmailTaken(us, email)
    ensures m.Some? ==>
      exists i :: 0 <= i < |us| && us[i].email == email &&
                  m.value == Mail(email, ResetSubject, ResetTemplate, s.dumps(us[i].id, ResetSalt, now))
  {
    match UserByEmail(us, email)
    case None => None
    case Some(i) => Some(Mail(us[i].email, ResetSubject, ResetTemplate, s.dumps(us[i].id, ResetSalt, now)))
  }

  /** `forgot_password`: the same message whether or not the address is known; a mail
      is queued only when it is. */
  method ForgotPassword(store: Store, email: string, s: Serializer, now: Time) returns (message: string)
    requires store.Valid()
    modifies store`outbox
    ensures store.Valid()
    ensures message == ResetSentMessage
    ensures store.outbox == old(store.outbox) +
      match ResetMailFor(store.users, email, s, now) case None => [] case Some(m) => [m]
  {
    var found := UserByEmail(store.users, email);
    if found.Some? {
      var user := store.users[found.value];
      var token := s.dumps(user.id, ResetSalt, now);
      store.outbox := store.outbox + [Mail(user.email, ResetSubject, ResetTemplate, token)];
    }
    message := ResetSentMessage;
  }

  /** The link in a reset mail, followed within half an hour, leads back to the user
      the mail was addressed to. */
  lemma ResetMailLeadsBack(us: seq<User>, nextId: int, email: string, s: Serializer, issued: Time, now: Time)
    requires UsersValid(us, nextId) && SoundSerializer(s) && issued <= now <= issued + ResetMaxAge
    requires ResetMailFor(us, email, s, issued).Some?
    ensures var i := VerifyResetToken(us, s, ResetMailFor(us, email, s, issued).value.token, now);
            i.Some? && us[i.value].email == email
  {
    var i :| 0 <= i < |us| && us[i].email == email &&
             ResetMailFor(us, email, s, issued).value ==
               Mail(email, ResetSubject, ResetTemplate, s.dumps(us[i].id, ResetSalt, issued));
    ResetTokenPurpose(us, i, s, issued, now);
  }

  datatype ResetOutcome =
    | InvalidLink               // "The password reset link is invalid or has expired."
    | ShowForm                  // GET with a valid token
    | PasswordsDiffer           // "Passwords do not match.", back to the form
    | PasswordUpdated(userId: int)

  /** `reset_password/<token>`: the token is verified first, on GET and POST alike; a
      POST with a matching pair replaces only that user's password hash. */
  method ResetPassword(store: Store, token: string, isPost: bool, password: string, password2: string,
                       h: Hasher, salt: string, s: Serializer, now: Time) returns (r: ResetOutcome)
    requires store.Valid()
    modifies store`users
    ensures store.Valid()
    ensures var found := VerifyResetToken(old(store.users), s, token, now);
      && (found.None? ==> r == InvalidLink && store.users == old(store.users))
      && (found.Some? && !isPost ==> r == ShowForm && store.users == old(store.users))
      && (found.Some? && isPost && password != password2 ==> r == PasswordsDiffer && store.users == old(store.users))
      && (found.Some? && isPost && password == password2 ==>
            r == PasswordUpdated(old(store.users)[found.value].id) &&
            store.users == old(store.users)[found.value := SetPassword(old(store.users)[found.value], h, salt, password)])
  {
    var found := VerifyResetToken(store.users, s, token, now);
    if found.None? {
      return InvalidLink;
    }
    if !isPost {
      return ShowForm;
    }
    if password != password2 {
      return PasswordsDiffer;
    }
    var i := found.value;
    var user := SetPassword(store.users[i], h, salt, password);
    ReplaceUserValid(store.users, store.nextUserId, i, user);
    store.users := store.users[i := user];
    r := PasswordUpdated(user.id);
  }

  /** After a reset the new password logs the user in, and only the hash changed, so
      confirmation status decides the landing page as before. */
  lemma LoginAfterReset(us: seq<User>, i: nat, h: Hasher, salt: string, password: string)
    requires UniqueEmails(us) && i < |us| && SoundHasher(h)
    ensures UniqueEmails(us[i := SetPassword(us[i], h, salt, password)])
    ensures Login(us[i := SetPassword(us[i], h, salt, password)], us[i].email, password, h) ==
            if us[i].confirmed then ToDashboard(us[i].id) else ToUnconfirmed(us[i].id)
  {
    var us' := us[i := SetPassword(us[i], h, salt, password)];
    assert forall j :: 0 <= j < |us| ==> us'[j].email == us[j].email;
    LoginFindsRow(us', i, password, h);
  }
}
