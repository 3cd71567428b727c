/** The access gates of app/decorators.py as decisions over the store. A decorated
    handler runs only on `Allow`; every `Deny` carries the flashed message (or the
    JSON error) that is returned instead. The request's current organization is an
    input: an optional organization id. */
module Decorators {
  import opened Prelude
  import opened Models

  datatype Decision = Allow | Deny(message: string)

  const SubscriptionMessage := "This feature requires an active subscription."
  const NoOrganizationMessage := "You are not part of any organization."

  /** The role `role_required()` asks for when none is given. */
  const DefaultRole := OwnerRole

  function RoleMessage(role: string): string {
    "This action requires the '" + role + "' role."
  }

  /** `subscription_required`: admits exactly when the current organization exists
      and is subscribed. */
  function SubscriptionRequired(os: seq<Organization>, current: Option<int>): (d: Decision)
    requires UniqueOrgIds(os)
    ensures d == Allow <==>
      current.Some? && exists i :: 0 <= i < |os| && os[i].id == current.value && os[i].isSubscribed
    ensures d != Allow ==> d == Deny(SubscriptionMessage)
  {
    if current.None? then Deny(SubscriptionMessage)
    else
      match OrgById(os, current.value)
      case None => Deny(SubscriptionMessage)
      case Some(i) =>
        assert forall j :: 0 <= j < |os| && os[j].id == current.value ==> j == i;
        if os[i].isSubscribed then Allow else Deny(SubscriptionMessage)
  }

  /** `current_user.memberships`: the user's rows of the memberships table, in order. */
  function UserMemberships(ms: seq<Membership>, userId: int): (r: seq<Membership>)
    ensures forall m :: m in r <==> m in ms && m.userId == userId
  {
    if ms == [] then []
    else (if ms[0].userId == userId then [ms[0]] else []) + UserMemberships(ms[1..], userId)
  }

  /** Under the composite key, a user has at most one membership per organization. */
  lemma SameKeySameRow(ms: seq<Membership>, a: Membership, b: Membership)
    requires UniqueMembershipKeys(ms) && a in ms && b in ms
    requires a.userId == b.userId && a.organizationId == b.organizationId
    ensures a == b
  {
    var i :| 0 <= i < |ms| && ms[i] == a;
    var j :| 0 <= j < |ms| && ms[j] == b;
  }

  /** `role_required(role)`: denies without a current organization; otherwise admits
      exactly when the user's membership in that organization has precisely `role`
      (no role implies another). */
  function RoleRequired(ms: seq<Membership>, userId: int, current: Option<int>, role: string := DefaultRole): (d: Decision)
    requires UniqueMembershipKeys(ms)
    ensures current.None? ==> d == Deny(NoOrganizationMessage)
    ensures d == Allow <==> current.Some? && Membership(userId, current.value, role) in ms
    ensures current.Some? && d != Allow ==> d == Deny(RoleMessage(role))
  {
    if current.None? then Deny(NoOrganizationMessage)
    else
      var mine := UserMemberships(ms, userId);
      match FindFirst(mine, (m: Membership) => m.organizationId == current.value)
      case None =>
        assert Membership(userId, current.value, role) !in mine;
        Deny(RoleMessage(role))
      case Some(k) =>
        assert mine[k] in mine;
        assert Membership(userId, current.value, role) in ms ==> mine[k] == Membership(userId, current.value, role) by {
          if Membership(userId, current.value, role) in ms {
            SameKeySameRow(ms, mine[k], Membership(userId, current.value, role));
          }
        }
        if mine[k].role != role then Deny(RoleMessage(role)) else Allow
  }

  datatype ApiAuth = Authenticated(user: User) | Unauthorized(error: string)

  const MissingHeaderError := "Authorization header is missing or invalid"
  const InvalidKeyError := "Invalid API key"
  const BearerPrefix := "Bearer "

  /** The `Authorization` header is present, non-empty and starts with "Bearer ". */
  predicate BearerHeader(header: Option<string>) {
    Truthy(header) && BearerPrefix <= header.value
  }

  /** `header.split(' ')[1]`: the text after "Bearer " up to the next space. */
  function BearerKey(header: string): (key: string)
    requires BearerPrefix <= header
    ensures ' ' !in key
    ensures key <= header[|BearerPrefix|..]
    ensures |key| == |header| - |BearerPrefix| || header[|BearerPrefix| + |key|] == ' '
  {
    var rest := header[|BearerPrefix|..];
    assert header == "Bearer" + [' '] + rest;
    SplitAfterField("Bearer", ' ', rest);
    SplitHead(rest, ' ');
    SplitOn(header, ' ')[1]
  }

  /** "Bearer " followed by a key without spaces gives back that key. */
  lemma BearerKeyOf(key: string)
    requires ' ' !in key
    ensures BearerPrefix <= BearerPrefix + key && BearerKey(BearerPrefix + key) == key
  {
    assert (BearerPrefix + key)[|BearerPrefix|..] == key;
  }

  /** `api_key_required`: 401 for a missing or non-bearer header, 401 for a key no
      user holds, and otherwise the user holding the key becomes `g.current_user`. */
  function ApiKeyRequired(us: seq<User>, header: Option<string>): (r: ApiAuth)
    ensures !BearerHeader(header) ==> r == Unauthorized(MissingHeaderError)
    ensures BearerHeader(header) ==>
      (r == Unauthorized(InvalidKeyError) <==> !ApiKeyTaken(us, BearerKey(header.value)))
    ensures BearerHeader(header) && ApiKeyTaken(us, BearerKey(header.value)) ==> r.Authenticated?
    ensures r.Authenticated? ==>
      BearerHeader(header) && r.user in us && r.user.apiKey == BearerKey(header.value)
  {
    if !BearerHeader(header) then Unauthorized(MissingHeaderError)
    else
      match UserByApiKey(us, BearerKey(header.value))
      case None => Unauthorized(InvalidKeyError)
      case Some(i) => Authenticated(us[i])
  }

  /** A stored user presenting "Bearer <its key>" is authenticated as that user. */
  lemma {:induction false} ApiKeyAuthenticates(us: seq<User>, i: nat)
    requires UniqueApiKeys(us) && i < |us| && ' ' !in us[i].apiKey
    ensures ApiKeyRequired(us, Some(BearerPrefix + us[i].apiKey)) == Authenticated(us[i])
  {
    BearerKeyOf(us[i].apiKey);
    FindFirstUnique(us, (u: User) => u.apiKey == us[i].apiKey, i);
  }
}
