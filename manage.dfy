/** The `create-admin` command of manage.py: an administrator account, created
    already confirmed, with its own organization that it owns. */
module Manage {
  import opened Prelude
  import opened Crypto
  import opened Models
  import opened Auth

  datatype AdminOutcome =
    | AdminExists        // "Error: User '<email>' already exists."
    | AdminCommitError   // the commit raised an IntegrityError
    | AdminCreated(userId: int, orgId: int)

  /** `User(email=email, is_admin=True, confirmed=True)` with its password set;
      `confirmed_on` stays empty. */
  function AdminUser(id: int, email: string, h: Hasher, salt: string, password: string,
                     entropy: seq<byte>, now: Time): (u: User)
    requires |entropy| == ApiKeyBytes
    ensures u.id == id && u.email == email && u.isAdmin && u.confirmed && u.confirmedOn == None
    ensures u.apiKey == TokenHex(entropy)
    ensures SoundHasher(h) ==> CheckPassword(u, h, password)
  {
    SetPassword(NewUser(id, email, true, true, None, entropy, now), h, salt, password)
  }

  /** `create_admin`: an existing address changes nothing; otherwise the admin, the
      organization "<local part>'s Organization" and the owner membership are added
      in one commit. No mail is queued. */
  method CreateAdmin(store: Store, email: string, password: string, h: Hasher, salt: string,
                     entropy: seq<byte>, now: Time) returns (r: AdminOutcome)
    requires store.Valid() && |entropy| == ApiKeyBytes
    modifies store`users, store`organizations, store`memberships, store`nextUserId, store`nextOrgId
    ensures store.Valid() && store.outbox == old(store.outbox)
    ensures EmailTaken(old(store.users), email) ==> r == AdminExists && unchanged(store)
    ensures !EmailTaken(old(store.users), email) && ApiKeyTaken(old(store.users), TokenHex(entropy)) ==>
      r == AdminCommitError && unchanged(store)
    ensures (!EmailTaken(old(store.users), email) && !ApiKeyTaken(old(store.users), TokenHex(entropy))) ==>
      var uid, oid := old(store.nextUserId), old(store.nextOrgId);
      && r == AdminCreated(uid, oid)
      && store.users == old(store.users) + [AdminUser(uid, email, h, salt, password, entropy, now)]
      && store.organizations == old(store.organizations) + [FreshOrganization(oid, LocalPart(email) + "'s Organization", now)]
      && store.memberships == old(store.memberships) + [Membership(uid, oid, OwnerRole)]
      && store.nextUserId == uid + 1 && store.nextOrgId == oid + 1
  {
    if UserByEmail(store.users, email).Some? {
      return AdminExists;
    }
    var admin := AdminUser(store.nextUserId, email, h, salt, password, entropy, now);
    var orgName := LocalPart(email) + "'s Organization";
    var orgId := store.nextOrgId;
    var committed := AddOwnedAccount(store, admin, orgName, now);
    if committed == AccountRefused {
      return AdminCommitError;
    }
    r := AdminCreated(admin.id, orgId);
  }

  /** The new administrator logs in straight to the dashboard: no confirmation step. */
  lemma AdminLogsInToDashboard(us: seq<User>, nextId: int, email: string, h: Hasher, salt: string,
                               password: string, entropy: seq<byte>, now: Time)
    requires |entropy| == ApiKeyBytes && SoundHasher(h)
    requires UsersValid(us + [AdminUser(nextId, email, h, salt, password, entropy, now)], nextId + 1)
    ensures Login(us + [AdminUser(nextId, email, h, salt, password, entropy, now)], email, password, h) ==
            ToDashboard(nextId)
  {
    LoginFindsRow(us + [AdminUser(nextId, email, h, salt, password, entropy, now)], |us|, password, h);
  }
}
