/** The identity-and-billing store of app/models.py: the `users`, `organizations`
    and `memberships` tables with their unique and foreign-key constraints, the
    per-user decisions (password check, token verification, confirmation) and the
    store-changing `find_or_create_from_oauth`. A table is a sequence of rows in
    insertion order; an ORM object is the row it maps, so an update of an object's
    fields is the replacement of its row. */
module Models {
  import opened Prelude
  import opened Crypto

  datatype User = User(
    id: int,
    email: string,
    passwordHash: Option<string>,
    createdAt: Time,
    isAdmin: bool,
    confirmed: bool,
    confirmedOn: Option<Time>,
    apiKey: string)

  datatype Organization = Organization(
    id: int,
    name: string,
    createdAt: Time,
    stripeCustomerId: Option<string>,
    isSubscribed: bool,
    subscriptionId: Option<string>,
    stripePriceId: Option<string>)

  /** A row of the `memberships` table; `(userId, organizationId)` is its key. */
  datatype Membership = Membership(userId: int, organizationId: int, role: string)

  /** A message handed to the background mail queue (`send_email.delay`). */
  datatype Mail = Mail(to: string, subject: string, template: string, token: string)

  const OwnerRole := "owner"
  const ConfirmSalt := "email-confirm"
  const ResetSalt := "password-reset"
  const ConfirmMaxAge := 3600
  const ResetMaxAge := 1800
  const ApiKeyBytes := 32

  // ---------------------------------------------------------------------------
  // Table constraints
  // ---------------------------------------------------------------------------

  ghost function UserIds(us: seq<User>): set<int> {
    set i | 0 <= i < |us| :: us[i].id
  }

  ghost function OrgIds(os: seq<Organization>): set<int> {
    set i | 0 <= i < |os| :: os[i].id
  }

  ghost predicate UniqueEmails(us: seq<User>) {
    forall i, j :: 0 <= i < j < |us| ==> us[i].email != us[j].email
  }

  ghost predicate UniqueApiKeys(us: seq<User>) {
    forall i, j :: 0 <= i < j < |us| ==> us[i].apiKey != us[j].apiKey
  }

  ghost predicate UniqueUserIds(us: seq<User>) {
    forall i, j :: 0 <= i < j < |us| ==> us[i].id != us[j].id
  }

  ghost predicate UniqueOrgIds(os: seq<Organization>) {
    forall i, j :: 0 <= i < j < |os| ==> os[i].id != os[j].id
  }

  /** The unique, nullable columns `stripe_customer_id` and `subscription_id` of two
      different rows do not hold the same non-null value. */
  predicate NoClash(a: Organization, b: Organization) {
    && !(a.stripeCustomerId.Some? && a.stripeCustomerId == b.stripeCustomerId)
    && !(a.subscriptionId.Some? && a.subscriptionId == b.subscriptionId)
  }

  ghost predicate UniqueStripeColumns(os: seq<Organization>) {
    forall i, j :: 0 <= i < j < |os| ==> NoClash(os[i], os[j])
  }

  ghost predicate UniqueMembershipKeys(ms: seq<Membership>) {
    forall i, j :: 0 <= i < j < |ms| ==>
      ms[i].userId != ms[j].userId || ms[i].organizationId != ms[j].organizationId
  }

  /** Ids come from an autoincrement counter that starts at 1. */
  ghost predicate UsersValid(us: seq<User>, nextId: int) {
    && 1 <= nextId
    && (forall i :: 0 <= i < |us| ==> 1 <= us[i].id < nextId)
    && UniqueUserIds(us) && UniqueEmails(us) && UniqueApiKeys(us)
  }

  ghost predicate OrgsValid(os: seq<Organization>, nextId: int) {
    && 1 <= nextId
    && (forall i :: 0 <= i < |os| ==> 1 <= os[i].id < nextId)
    && UniqueOrgIds(os) && UniqueStripeColumns(os)
  }

  ghost predicate MembershipsValid(ms: seq<Membership>, us: seq<User>, os: seq<Organization>) {
    && (forall i :: 0 <= i < |ms| ==> ms[i].userId in UserIds(us) && ms[i].organizationId in OrgIds(os))
    && UniqueMembershipKeys(ms)
  }

  /** What the database checks when row `o` is written at position `i` and committed:
      no other row holds its customer or subscription id. */
  predicate UniqueAccepts(os: seq<Organization>, i: nat, o: Organization) {
    forall j :: 0 <= j < |os| && j != i ==> NoClash(os[j], o)
  }

  /** Writing a row the constraints accept, under the same id, keeps the table valid. */
  lemma {:induction false} UniqueAcceptsPreserves(os: seq<Organization>, nextId: int, i: nat, o: Organization)
    requires OrgsValid(os, nextId) && i < |os|
    requires o.id == os[i].id && UniqueAccepts(os, i, o)
    ensures OrgsValid(os[i := o], nextId)
    ensures OrgIds(os[i := o]) == OrgIds(os)
  {
    var os' := os[i := o];
    forall a, b | 0 <= a < b < |os'| ensures NoClash(os'[a], os'[b]) {
      if a == i {
        assert NoClash(os[b], o);
      } else if b == i {
        assert NoClash(os[a], o);
      }
    }
    forall x | x in OrgIds(os) ensures x in OrgIds(os') {
      var k :| 0 <= k < |os| && os[k].id == x;
      assert os'[k].id == x;
    }
    forall x | x in OrgIds(os') ensures x in OrgIds(os) {
      var k :| 0 <= k < |os'| && os'[k].id == x;
      assert os[k].id == x;
    }
  }

  predicate EmailTaken(us: seq<User>, email: string) {
    exists i :: 0 <= i < |us| && us[i].email == email
  }

  predicate ApiKeyTaken(us: seq<User>, key: string) {
    exists i :: 0 <= i < |us| && us[i].apiKey == key
  }

  // ---------------------------------------------------------------------------
  // Queries
  // ---------------------------------------------------------------------------

  /** `User.query.filter_by(email=email).first()`. */
  function UserByEmail(us: seq<User>, email: string): Option<nat> {
    FindFirst(us, (u: User) => u.email == email)
  }

  /** `User.query.get(id)`. */
  function UserById(us: seq<User>, id: int): Option<nat> {
    FindFirst(us, (u: User) => u.id == id)
  }

  /** `User.query.filter_by(api_key=key).first()`. */
  function UserByApiKey(us: seq<User>, key: string): Option<nat> {
    FindFirst(us, (u: User) => u.apiKey == key)
  }

  /** `Organization.query.get(id)`. */
  function OrgById(os: seq<Organization>, id: int): Option<nat> {
    FindFirst(os, (o: Organization) => o.id == id)
  }

  /** `Organization.query.filter_by(stripe_customer_id=customer).first()`. */
  function OrgByCustomer(os: seq<Organization>, customer: string): Option<nat> {
    FindFirst(os, (o: Organization) => o.stripeCustomerId == Some(customer))
  }

  // ---------------------------------------------------------------------------
  // User: construction, password, tokens
  // ---------------------------------------------------------------------------

  /** `User(**kwargs)`: the columns' defaults, and an API key that is the supplied one
      or else `secrets.token_hex(32)` drawn from `entropy`. */
  function NewUser(id: int, email: string, isAdmin: bool, confirmed: bool,
                   apiKey: Option<string>, entropy: seq<byte>, now: Time): (u: User)
    requires |entropy| == ApiKeyBytes
    ensures u.id == id && u.email == email && u.isAdmin == isAdmin && u.confirmed == confirmed
    ensures u.passwordHash == None && u.confirmedOn == None && u.createdAt == now
    ensures apiKey.Some? ==> u.apiKey == apiKey.value
    ensures apiKey.None? ==> |u.apiKey| == 64 && forall k :: 0 <= k < 64 ==> u.apiKey[k] in HexDigits
  {
    User(id, email, None, now, isAdmin, confirmed, None,
         if apiKey.Some? then apiKey.value else TokenHex(entropy))
  }

  /** Two users built without a supplied key from different random draws get different keys. */
  lemma GeneratedKeysDiffer(id1: int, id2: int, e1: string, e2: string, a1: bool, a2: bool,
                            c1: bool, c2: bool, r1: seq<byte>, r2: seq<byte>, t1: Time, t2: Time)
    requires |r1| == ApiKeyBytes && |r2| == ApiKeyBytes && r1 != r2
    ensures NewUser(id1, e1, a1, c1, None, r1, t1).apiKey != NewUser(id2, e2, a2, c2, None, r2, t2).apiKey
  {
    if TokenHex(r1) == TokenHex(r2) {
      HexEncodeInjective(r1, r2);
    }
  }

  /** `check_password`: a user without a (non-empty) hash accepts no password. */
  function CheckPassword(u: User, h: Hasher, password: string): (ok: bool)
    ensures (u.passwordHash == None || u.passwordHash == Some("")) ==> !ok
    ensures Truthy(u.passwordHash) ==> (ok <==> h.check(u.passwordHash.value, password))
  {
    if u.passwordHash.None? || u.passwordHash.value == "" then false
    else h.check(u.passwordHash.value, password)
  }

  /** `set_password`: only the hash changes, and the password now checks. */
  function SetPassword(u: User, h: Hasher, salt: string, password: string): (r: User)
    ensures r == u.(passwordHash := r.passwordHash)
    ensures SoundHasher(h) ==> CheckPassword(r, h, password)
  {
    u.(passwordHash := Some(h.generate(salt, password)))
  }

  /** `verify_token`: the payload's user id, or None for every kind of failure. */
  function VerifyToken(s: Serializer, token: string, salt: string, maxAge: int, now: Time): (r: Option<int>)
    ensures r.Some? ==> s.loads(token, salt, maxAge, now) == Payload(r)
    ensures s.loads(token, salt, maxAge, now).Payload? ==> r == s.loads(token, salt, maxAge, now).userId
    ensures !s.loads(token, salt, maxAge, now).Payload? ==> r == None
  {
    match s.loads(token, salt, maxAge, now)
    case Payload(id) => id
    case SignatureExpired => None
    case BadTimeSignature => None
    case OtherError => None
  }

  /** A token verifies to its user id within its age limit, under its own salt only. */
  lemma TokenRoundTrip(s: Serializer, id: int, salt: string, other: string, issued: Time, maxAge: int, now: Time)
    requires SoundSerializer(s)
    ensures issued <= now <= issued + maxAge ==> VerifyToken(s, s.dumps(id, salt, issued), salt, maxAge, now) == Some(id)
    ensures salt != other ==> VerifyToken(s, s.dumps(id, salt, issued), other, maxAge, now) == None
  {
  }

  /** `User.confirm`: on a token that verifies under 'email-confirm' to this user's id,
      the user becomes confirmed at `now`; otherwise the result is false and the user
      is unchanged. */
  function Confirm(u: User, s: Serializer, token: string, now: Time): (r: (bool, User))
    ensures r.0 <==> VerifyToken(s, token, ConfirmSalt, ConfirmMaxAge, now) == Some(u.id)
    ensures r.0 ==> r.1 == u.(confirmed := true, confirmedOn := Some(now))
    ensures !r.0 ==> r.1 == u
  {
    var userId := VerifyToken(s, token, ConfirmSalt, ConfirmMaxAge, now);
    if userId != Some(u.id) then (false, u)
    else (true, u.(confirmed := true, confirmedOn := Some(now)))
  }

  /** A confirmation token issued for the user within the hour confirms it; a password
      reset token for the same user never does. */
  lemma ConfirmTokenPurpose(u: User, s: Serializer, issued: Time, now: Time)
    requires SoundSerializer(s)
    ensures issued <= now <= issued + ConfirmMaxAge ==> Confirm(u, s, s.dumps(u.id, ConfirmSalt, issued), now).0
    ensures !Confirm(u, s, s.dumps(u.id, ResetSalt, issued), now).0
  {
    assert ConfirmSalt[0] != ResetSalt[0];
    TokenRoundTrip(s, u.id, ConfirmSalt, ResetSalt, issued, ConfirmMaxAge, now);
    TokenRoundTrip(s, u.id, ResetSalt, ConfirmSalt, issued, ConfirmMaxAge, now);
  }

  /** `verify_reset_token`: the row of the user a 'password-reset' token names, if any. */
  function VerifyResetToken(us: seq<User>, s: Serializer, token: string, now: Time): (r: Option<nat>)
    ensures r.Some? ==> r.value < |us| && VerifyToken(s, token, ResetSalt, ResetMaxAge, now) == Some(us[r.value].id)
    ensures r.None? ==> match VerifyToken(s, token, ResetSalt, ResetMaxAge, now)
                        case None => true
                        case Some(id) => forall i :: 0 <= i < |us| ==> us[i].id != id
  {
    match VerifyToken(s, token, ResetSalt, ResetMaxAge, now)
    case None => None
    case Some(id) => UserById(us, id)
  }

  /** A reset token issued for a stored user finds that user within half an hour; a
      confirmation token finds nobody. */
  lemma ResetTokenPurpose(us: seq<User>, i: nat, s: Serializer, issued: Time, now: Time)
    requires SoundSerializer(s) && UniqueUserIds(us) && i < |us|
    ensures issued <= now <= issued + ResetMaxAge ==> VerifyResetToken(us, s, s.dumps(us[i].id, ResetSalt, issued), now) == Some(i)
    ensures VerifyResetToken(us, s, s.dumps(us[i].id, ConfirmSalt, issued), now) == None
  {
    assert ConfirmSalt[0] != ResetSalt[0];
    TokenRoundTrip(s, us[i].id, ResetSalt, ConfirmSalt, issued, ResetMaxAge, now);
    TokenRoundTrip(s, us[i].id, ConfirmSalt, ResetSalt, issued, ResetMaxAge, now);
    if issued <= now <= issued + ResetMaxAge {
      FindFirstUnique(us, (u: User) => u.id == us[i].id, i);
    }
  }

  // ---------------------------------------------------------------------------
  // The store
  // ---------------------------------------------------------------------------

  /** The database session's view of the three tables, the autoincrement counters
      and the mail queue that the flows hand messages to. */
  class Store {
    var users: seq<User>
    var organizations: seq<Organization>
    var memberships: seq<Membership>
    var outbox: seq<Mail>
    var nextUserId: int
    var nextOrgId: int

    ghost predicate Valid()
      reads this
    {
      && UsersValid(users, nextUserId)
      && OrgsValid(organizations, nextOrgId)
      && MembershipsValid(memberships, users, organizations)
    }

    constructor ()
      ensures Valid()
      ensures users == [] && organizations == [] && memberships == [] && outbox == []
    {
      users, organizations, memberships, outbox := [], [], [], [];
      nextUserId, nextOrgId := 1, 1;
    }
  }

  /** Appending a user with a fresh id, an unused email and an unused key keeps the
      users table valid and every membership's user reference intact. */
  lemma {:induction false} AppendUserValid(us: seq<User>, nextId: int, u: User)
    requires UsersValid(us, nextId)
    requires u.id == nextId && !EmailTaken(us, u.email) && !ApiKeyTaken(us, u.apiKey)
    ensures UsersValid(us + [u], nextId + 1)
    ensures UserIds(us + [u]) == UserIds(us) + {u.id}
    ensures nextId !in UserIds(us)
  {
    var us' := us + [u];
    forall x | x in UserIds(us) ensures x in UserIds(us') {
      var k :| 0 <= k < |us| && us[k].id == x;
      assert us'[k].id == x;
    }
    assert us'[|us|].id == u.id;
  }

  lemma {:induction false} AppendOrgValid(os: seq<Organization>, nextId: int, o: Organization)
    requires OrgsValid(os, nextId)
    requires o.id == nextId && o.stripeCustomerId == None && o.subscriptionId == None
    ensures OrgsValid(os + [o], nextId + 1)
    ensures OrgIds(os + [o]) == OrgIds(os) + {o.id}
    ensures nextId !in OrgIds(os)
  {
    var os' := os + [o];
    forall x | x in OrgIds(os) ensures x in OrgIds(os') {
      var k :| 0 <= k < |os| && os[k].id == x;
      assert os'[k].id == x;
    }
    assert os'[|os|].id == o.id;
  }

  /** Replacing a user row by one with the same id, email and key keeps the table valid. */
  lemma {:induction false} ReplaceUserValid(us: seq<User>, nextId: int, i: nat, u: User)
    requires UsersValid(us, nextId) && i < |us|
    requires u.id == us[i].id && u.email == us[i].email && u.apiKey == us[i].apiKey
    ensures UsersValid(us[i := u], nextId)
    ensures UserIds(us[i := u]) == UserIds(us)
  {
    var us' := us[i := u];
    forall x | x in UserIds(us) ensures x in UserIds(us') {
      var k :| 0 <= k < |us| && us[k].id == x;
      assert us'[k].id == x;
    }
    forall x | x in UserIds(us') ensures x in UserIds(us) {
      var k :| 0 <= k < |us'| && us'[k].id == x;
      assert us[k].id == x;
    }
  }

  /** `Organization(name=name)`: no Stripe customer, no subscription. */
  function FreshOrganization(id: int, name: string, now: Time): (o: Organization)
    ensures o.id == id && o.name == name && o.createdAt == now
    ensures !o.isSubscribed && o.stripeCustomerId == None && o.subscriptionId == None && o.stripePriceId == None
  {
    Organization(id, name, now, None, false, None, None)
  }

  /** A membership naming a new user and a new organization joins valid tables. */
  lemma {:induction false} AppendMembershipValid(ms: seq<Membership>, us: seq<User>, os: seq<Organization>,
                                                 u: User, o: Organization, role: string)
    requires MembershipsValid(ms, us, os) && u.id !in UserIds(us)
    ensures MembershipsValid(ms + [Membership(u.id, o.id, role)], us + [u], os + [o])
  {
    var us', os' := us + [u], os + [o];
    assert us'[|us|].id == u.id && os'[|os|].id == o.id;
    forall x | x in UserIds(us) ensures x in UserIds(us') {
      var k :| 0 <= k < |us| && us[k].id == x;
      assert us'[k].id == x;
    }
    forall x | x in OrgIds(os) ensures x in OrgIds(os') {
      var k :| 0 <= k < |os| && os[k].id == x;
      assert os'[k].id == x;
    }
  }

  datatype AccountCommit = AccountCommitted | AccountRefused

  /** The `db.session.add` of a new user, a new organization named `orgName` and the
      owner membership linking them, then `commit`: the organization takes the next
      id, and a clash of the user's API key refuses the commit, changing nothing. */
  method AddOwnedAccount(store: Store, user: User, orgName: string, now: Time) returns (r: AccountCommit)
    requires store.Valid()
    requires user.id == store.nextUserId && !EmailTaken(store.users, user.email)
    modifies store`users, store`organizations, store`memberships, store`nextUserId, store`nextOrgId
    ensures store.Valid()
    ensures ApiKeyTaken(old(store.users), user.apiKey) ==> r == AccountRefused && unchanged(store)
    ensures !ApiKeyTaken(old(store.users), user.apiKey) ==>
      && r == AccountCommitted
      && store.users == old(store.users) + [user]
      && store.organizations == old(store.organizations) + [FreshOrganization(old(store.nextOrgId), orgName, now)]
      && store.memberships == old(store.memberships) + [Membership(user.id, old(store.nextOrgId), OwnerRole)]
      && store.nextUserId == old(store.nextUserId) + 1 && store.nextOrgId == old(store.nextOrgId) + 1
  {
    if ApiKeyTaken(store.users, user.apiKey) {
      return AccountRefused;
    }
    var org := FreshOrganization(store.nextOrgId, orgName, now);
    AppendUserValid(store.users, store.nextUserId, user);
    AppendOrgValid(store.organizations, store.nextOrgId, org);
    AppendMembershipValid(store.memberships, store.users, store.organizations, user, org, OwnerRole);
    store.memberships := store.memberships + [Membership(user.id, org.id, OwnerRole)];
    store.users := store.users + [user];
    store.organizations := store.organizations + [org];
    store.nextUserId := store.nextUserId + 1;
    store.nextOrgId := store.nextOrgId + 1;
    r := AccountCommitted;
  }

  datatype OAuthResult = OAuthUser(userId: int, created: bool) | OAuthCommitError

  /** `find_or_create_from_oauth`: the user with that email, or a new password-less
      user; a clash of the generated API key fails the commit and changes nothing. */
  method FindOrCreateFromOAuth(store: Store, email: string, entropy: seq<byte>, now: Time)
    returns (r: OAuthResult)
    requires store.Valid() && |entropy| == ApiKeyBytes
    modifies store`users, store`nextUserId
    ensures store.Valid()
    ensures EmailTaken(old(store.users), email) ==>
      && r.OAuthUser? && !r.created && unchanged(store)
      && exists i :: 0 <= i < |store.users| && store.users[i].email == email && store.users[i].id == r.userId
    ensures !EmailTaken(old(store.users), email) && ApiKeyTaken(old(store.users), TokenHex(entropy)) ==>
      r == OAuthCommitError && unchanged(store)
    ensures !EmailTaken(old(store.users), email) && !ApiKeyTaken(old(store.users), TokenHex(entropy)) ==>
      && r == OAuthUser(old(store.nextUserId), true)
      && store.users == old(store.users) + [NewUser(old(store.nextUserId), email, false, false, None, entropy, now)]
      && store.nextUserId == old(store.nextUserId) + 1
    ensures r.OAuthUser? ==> EmailTaken(store.users, email)
  {
    var found := UserByEmail(store.users, email);
    if found.Some? {
      r := OAuthUser(store.users[found.value].id, false);
      return;
    }
    var user := NewUser(store.nextUserId, email, false, false, None, entropy, now);
    if ApiKeyTaken(store.users, user.apiKey) {
      r := OAuthCommitError;
      return;
    }
    AppendUserValid(store.users, store.nextUserId, user);
    store.users := store.users + [user];
    store.nextUserId := store.nextUserId + 1;
    r := OAuthUser(user.id, true);
    assert store.users[|store.users| - 1].email == email;
  }

  /** Two sign-ins with the same email create at most one user. */
  method OAuthTwice(store: Store, email: string, entropy1: seq<byte>, entropy2: seq<byte>, now: Time)
    returns (first: OAuthResult, second: OAuthResult)
    requires store.Valid() && |entropy1| == ApiKeyBytes && |entropy2| == ApiKeyBytes
    modifies store`users, store`nextUserId
    ensures store.Valid()
    ensures |store.users| <= |old(store.users)| + 1
    ensures !(first.OAuthUser? && first.created && second.OAuthUser? && second.created)
  {
    first := FindOrCreateFromOAuth(store, email, entropy1, now);
    second := FindOrCreateFromOAuth(store, email, entropy2, now);
  }
}
