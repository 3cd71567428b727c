/** app/payments.py: the Stripe webhook reconciler, which drives each organization
    between subscribed and unsubscribed, and the two owner-only initiators that open
    a Stripe Checkout or Customer Portal session. Stripe itself is represented by
    its answers: the verdict of `construct_event` and the reply to session creation. */
module Payments {
  import opened Prelude
  import opened Models
  import opened Decorators

  const CheckoutCompleted := "checkout.session.completed"
  const SubscriptionDeleted := "customer.subscription.deleted"

  /** The keys of `event["data"]["object"]` the handler may read; a missing key is None. */
  datatype EventObject = EventObject(
    id: Option<string>,
    clientReferenceId: Option<int>,
    customer: Option<string>,
    subscription: Option<string>)

  datatype Event = Event(kind: string, data: EventObject)

  /** `stripe.Webhook.construct_event(payload, sig_header, secret)`: the parsed event,
      or the `ValueError` / `SignatureVerificationError` it raises. */
  datatype Construct = Verified(event: Event) | InvalidPayload | InvalidSignature

  datatype WebhookResponse =
    | Success                    // 200 {"status": "success"}
    | SecretNotConfigured        // 500 "Webhook secret not configured"
    | InvalidPayloadOrSignature  // 400 "Invalid payload or signature"
    | CommitError                // 500: the commit raised an IntegrityError

  function StatusCode(r: WebhookResponse): int {
    match r
    case Success => 200
    case SecretNotConfigured => 500
    case InvalidPayloadOrSignature => 400
    case CommitError => 500
  }

  /** The response and the organizations table after one webhook request. */
  datatype Delivery = Delivery(response: WebhookResponse, organizations: seq<Organization>)

  /** `if org_id:` on the integer correlation id. */
  predicate TruthyId(id: Option<int>) {
    id.Some? && id.value != 0
  }

  /** The row an event addresses: for a completed checkout the organization whose id is
      the client reference, for a deleted subscription the first organization holding
      the customer id; none for a missing correlation, a lookup miss or another kind. */
  function Target(os: seq<Organization>, ev: Event): (r: Option<nat>)
    ensures r.Some? ==> r.value < |os|
  {
    if ev.kind == CheckoutCompleted then
      if TruthyId(ev.data.clientReferenceId) then OrgById(os, ev.data.clientReferenceId.value) else None
    else if ev.kind == SubscriptionDeleted then
      if Truthy(ev.data.customer) then OrgByCustomer(os, ev.data.customer.value) else None
    else None
  }

  /** The assignments each recognised event makes to its row. */
  function Transition(o: Organization, ev: Event): Organization {
    if ev.kind == CheckoutCompleted then
      o.(stripeCustomerId := ev.data.customer, subscriptionId := ev.data.subscription, isSubscribed := true)
    else
      o.(isSubscribed := false, subscriptionId := None)
  }

  /** Dispatch of a verified event: at most the targeted row changes, ids never change,
      and a commit the unique constraints refuse leaves the table as it was. */
  function Reconcile(os: seq<Organization>, ev: Event): (d: Delivery)
    ensures d.response == Success || d.response == CommitError
    ensures |d.organizations| == |os|
    ensures d.response == CommitError ==> d.organizations == os
    ensures forall j :: 0 <= j < |os| && Target(os, ev) != Some(j) ==> d.organizations[j] == os[j]
    ensures forall j :: 0 <= j < |os| ==> d.organizations[j].id == os[j].id
  {
    match Target(os, ev)
    case None => Delivery(Success, os)
    case Some(i) =>
      var o := Transition(os[i], ev);
      if UniqueAccepts(os, i, o) then Delivery(Success, os[i := o]) else Delivery(CommitError, os)
  }

  /** `stripe_webhook`: the secret is checked, then the signature, and only then is any
      organization read or written. */
  function Deliver(os: seq<Organization>, payload: string, sigHeader: Option<string>, secret: Option<string>,
                   construct: (string, Option<string>, string) -> Construct): (d: Delivery)
    ensures !Truthy(secret) ==> d == Delivery(SecretNotConfigured, os)
    ensures Truthy(secret) && !construct(payload, sigHeader, secret.value).Verified? ==>
      d == Delivery(InvalidPayloadOrSignature, os)
    ensures Truthy(secret) && construct(payload, sigHeader, secret.value).Verified? ==>
      d == Reconcile(os, construct(payload, sigHeader, secret.value).event)
    ensures d.response == Success || d.response == CommitError ==>
      Truthy(secret) && construct(payload, sigHeader, secret.value).Verified?
  {
    if !Truthy(secret) then Delivery(SecretNotConfigured, os)
    else
      match construct(payload, sigHeader, secret.value)
      case Verified(ev) => Reconcile(os, ev)
      case InvalidPayload => Delivery(InvalidPayloadOrSignature, os)
      case InvalidSignature => Delivery(InvalidPayloadOrSignature, os)
  }

  // ---------------------------------------------------------------------------
  // The webhook handler on the store
  // ---------------------------------------------------------------------------

  /** The request handler: overwrites the looked-up organization's fields in place and
      commits; nothing but the organizations table can change. */
  method StripeWebhook(store: Store, payload: string, sigHeader: Option<string>, secret: Option<string>,
                       construct: (string, Option<string>, string) -> Construct)
    returns (response: WebhookResponse)
    requires store.Valid()
    modifies store`organizations
    ensures store.Valid()
    ensures Delivery(response, store.organizations) ==
            Deliver(old(store.organizations), payload, sigHeader, secret, construct)
    ensures store.users == old(store.users) && store.memberships == old(store.memberships)
  {
    if !Truthy(secret) {
      return SecretNotConfigured;
    }
    var verdict := construct(payload, sigHeader, secret.value);
    if !verdict.Verified? {
      return InvalidPayloadOrSignature;
    }
    var event := verdict.event;
    var data := event.data;
    ReconcilePreservesValid(store.organizations, store.nextOrgId, event);

    var target: Option<nat> := None;
    var updated: Organization;
    if event.kind == CheckoutCompleted {
      var orgId := data.clientReferenceId;
      if TruthyId(orgId) {
        var found := OrgById(store.organizations, orgId.value);
        if found.Some? {
          target := found;
          updated := store.organizations[found.value].(
            stripeCustomerId := data.customer, subscriptionId := data.subscription, isSubscribed := true);
        }
      }
    } else if event.kind == SubscriptionDeleted {
      var customerId := data.customer;
      if Truthy(customerId) {
        var found := OrgByCustomer(store.organizations, customerId.value);
        if found.Some? {
          target := found;
          updated := store.organizations[found.value].(isSubscribed := false, subscriptionId := None);
        }
      }
    }

    if target.Some? {
      // db.session.commit(): the unique columns are checked here.
      if !UniqueAccepts(store.organizations, target.value, updated) {
        return CommitError;
      }
      store.organizations := store.organizations[target.value := updated];
    }
    response := Success;
  }

  // ---------------------------------------------------------------------------
  // Properties of the reconciler
  // ---------------------------------------------------------------------------

  /** The reconciler keeps the organizations table valid and its set of ids. */
  lemma ReconcilePreservesValid(os: seq<Organization>, nextId: int, ev: Event)
    requires OrgsValid(os, nextId)
    ensures OrgsValid(Reconcile(os, ev).organizations, nextId)
    ensures OrgIds(Reconcile(os, ev).organizations) == OrgIds(os)
  {
    match Target(os, ev)
    case None =>
    case Some(i) =>
      var o := Transition(os[i], ev);
      if UniqueAccepts(os, i, o) {
        UniqueAcceptsPreserves(os, nextId, i, o);
      }
  }

  /** A completed checkout naming an existing organization stores the event's customer
      and subscription ids on it and marks it subscribed, unless another organization
      already holds one of those ids, in which case the commit fails and nothing changes. */
  lemma CheckoutCompletedSubscribes(os: seq<Organization>, nextId: int, ev: Event, i: nat)
    requires OrgsValid(os, nextId) && i < |os|
    requires ev.kind == CheckoutCompleted && ev.data.clientReferenceId == Some(os[i].id)
    ensures var o := os[i].(stripeCustomerId := ev.data.customer,
                            subscriptionId := ev.data.subscription, isSubscribed := true);
            Reconcile(os, ev) ==
              if UniqueAccepts(os, i, o) then Delivery(Success, os[i := o]) else Delivery(CommitError, os)
  {
    FindFirstUnique(os, (o: Organization) => o.id == os[i].id, i);
  }

  /** A deleted subscription whose customer id an organization holds marks it
      unsubscribed and clears its subscription id, keeping the customer id. */
  lemma {:induction false} SubscriptionDeletedUnsubscribes(os: seq<Organization>, nextId: int, ev: Event, i: nat)
    requires OrgsValid(os, nextId) && i < |os|
    requires ev.kind == SubscriptionDeleted && Truthy(ev.data.customer)
    requires os[i].stripeCustomerId == ev.data.customer
    ensures Reconcile(os, ev) == Delivery(Success, os[i := os[i].(isSubscribed := false, subscriptionId := None)])
    ensures Reconcile(os, ev).organizations[i].stripeCustomerId == os[i].stripeCustomerId
  {
    var c := ev.data.customer.value;
    forall j | 0 <= j < |os| && j != i ensures os[j].stripeCustomerId != Some(c) {
      if j < i {
        assert NoClash(os[j], os[i]);
      } else {
        assert NoClash(os[i], os[j]);
      }
    }
    FindFirstUnique(os, (o: Organization) => o.stripeCustomerId == Some(c), i);
    var o := Transition(os[i], ev);
    forall j | 0 <= j < |os| && j != i ensures NoClash(os[j], o) {
      if j < i {
        assert NoClash(os[j], os[i]);
      } else {
        assert NoClash(os[i], os[j]);
      }
    }
  }

  /** No client reference, no organization with that id, no customer, or no
      organization with that customer: the table is untouched and the sender is told
      the event succeeded. */
  lemma LookupMissIsNoOp(os: seq<Organization>, ev: Event)
    requires
      || (ev.kind == CheckoutCompleted &&
          (!TruthyId(ev.data.clientReferenceId) ||
           forall j :: 0 <= j < |os| ==> os[j].id != ev.data.clientReferenceId.value))
      || (ev.kind == SubscriptionDeleted &&
          (!Truthy(ev.data.customer) ||
           forall j :: 0 <= j < |os| ==> os[j].stripeCustomerId != ev.data.customer))
    ensures Reconcile(os, ev) == Delivery(Success, os)
  {
  }

  /** Any other event type changes nothing and is acknowledged. */
  lemma UnknownEventIgnored(os: seq<Organization>, ev: Event)
    requires ev.kind != CheckoutCompleted && ev.kind != SubscriptionDeleted
    ensures Reconcile(os, ev) == Delivery(Success, os)
  {
  }

  /** Delivering the same event twice gives the same response and table as once. */
  lemma {:induction false} ReconcileIdempotent(os: seq<Organization>, ev: Event)
    ensures Reconcile(Reconcile(os, ev).organizations, ev) == Reconcile(os, ev)
  {
    match Target(os, ev)
    case None =>
    case Some(i) =>
      var o := Transition(os[i], ev);
      if UniqueAccepts(os, i, o) {
        var os' := os[i := o];
        assert Transition(o, ev) == o;
        if ev.kind == CheckoutCompleted {
          FindFirstAgrees(os, os', (x: Organization) => x.id == ev.data.clientReferenceId.value);
        } else {
          FindFirstAgrees(os, os', (x: Organization) => x.stripeCustomerId == ev.data.customer);
        }
        assert Target(os', ev) == Some(i);
        assert UniqueAccepts(os', i, o);
        assert os'[i := o] == os';
      }
  }

  /** Re-delivery of one webhook request is harmless: same response, same table. */
  lemma DeliverIdempotent(os: seq<Organization>, payload: string, sigHeader: Option<string>,
                          secret: Option<string>, construct: (string, Option<string>, string) -> Construct)
    ensures var once := Deliver(os, payload, sigHeader, secret, construct);
            Deliver(once.organizations, payload, sigHeader, secret, construct) == once
  {
    if Truthy(secret) && construct(payload, sigHeader, secret.value).Verified? {
      ReconcileIdempotent(os, construct(payload, sigHeader, secret.value).event);
    }
  }

  /** A missing secret (500) or a rejected signature or payload (400) is decided before
      any organization is looked at: the response does not depend on the table and the
      table is unchanged. */
  lemma RejectedBeforeAnyLookup(os1: seq<Organization>, os2: seq<Organization>, payload: string,
                                sigHeader: Option<string>, secret: Option<string>,
                                construct: (string, Option<string>, string) -> Construct)
    requires !Truthy(secret) || !construct(payload, sigHeader, secret.value).Verified?
    ensures Deliver(os1, payload, sigHeader, secret, construct).response ==
            Deliver(os2, payload, sigHeader, secret, construct).response
    ensures Deliver(os1, payload, sigHeader, secret, construct).organizations == os1
    ensures StatusCode(Deliver(os1, payload, sigHeader, secret, construct).response) ==
            if Truthy(secret) then 400 else 500
  {
  }

  /** The deletion handler matches on the customer id alone: a deletion for an older
      subscription, arriving after the organization re-subscribed under a new
      subscription id, still cancels the current subscription. */
  lemma StaleDeletionCancelsCurrentSubscription(os: seq<Organization>, nextId: int, i: nat,
                                                customer: string, staleSubscription: string)
    requires OrgsValid(os, nextId) && i < |os| && customer != ""
    requires os[i].isSubscribed && os[i].stripeCustomerId == Some(customer)
    requires os[i].subscriptionId.Some? && os[i].subscriptionId != Some(staleSubscription)
    ensures var stale := Event(SubscriptionDeleted, EventObject(Some(staleSubscription), None, Some(customer), None));
            !Reconcile(os, stale).organizations[i].isSubscribed &&
            Reconcile(os, stale).organizations[i].subscriptionId == None
  {
    var stale := Event(SubscriptionDeleted, EventObject(Some(staleSubscription), None, Some(customer), None));
    SubscriptionDeletedUnsubscribes(os, nextId, stale, i);
  }

  /** After a committed checkout the organization passes `subscription_required`; after
      its subscription is deleted it fails it. */
  lemma {:induction false} WebhookDrivesSubscriptionGate(os: seq<Organization>, nextId: int, ev: Event, i: nat)
    requires OrgsValid(os, nextId) && i < |os|
    requires
      || (ev.kind == CheckoutCompleted && ev.data.clientReferenceId == Some(os[i].id) &&
          Reconcile(os, ev).response == Success)
      || (ev.kind == SubscriptionDeleted && Truthy(ev.data.customer) &&
          os[i].stripeCustomerId == ev.data.customer)
    ensures UniqueOrgIds(Reconcile(os, ev).organizations)
    ensures SubscriptionRequired(Reconcile(os, ev).organizations, Some(os[i].id)) ==
            if ev.kind == CheckoutCompleted then Allow else Deny(SubscriptionMessage)
  {
    ReconcilePreservesValid(os, nextId, ev);
    var os' := Reconcile(os, ev).organizations;
    if ev.kind == CheckoutCompleted {
      CheckoutCompletedSubscribes(os, nextId, ev, i);
      assert os'[i].isSubscribed;
    } else {
      SubscriptionDeletedUnsubscribes(os, nextId, ev, i);
      assert !os'[i].isSubscribed;
    }
  }

  // ---------------------------------------------------------------------------
  // Checkout and Customer Portal initiators
  // ---------------------------------------------------------------------------

  /** Stripe's answer to a session-creation call: the hosted page, or the exception. */
  datatype StripeReply = SessionUrl(url: string) | StripeError(detail: string)

  /** The arguments of `stripe.checkout.Session.create` that the model tracks. */
  datatype CheckoutRequest = CheckoutRequest(clientReferenceId: int, customerEmail: string, priceId: string)

  /** A refusal flashed before any Stripe call, a 303 redirect to the page Stripe
      returned for `request`, or the flashed Stripe error for `request`. */
  datatype SessionOutcome<R> = Refused(message: string) | Opened(request: R, url: string) | Failed(request: R, message: string)

  const CheckoutErrorPrefix := "Error creating checkout session: "
  const PortalErrorPrefix := "Error accessing customer portal: "
  const NoSubscriptionMessage := "Your organization doesn't have a subscription to manage."

  /** `create_checkout_session` behind `role_required("owner")`: only an owner of the
      current organization reaches Stripe, and the request carries that organization's
      id as the client reference the webhook later correlates on. */
  function CreateCheckoutSession(ms: seq<Membership>, user: User, current: Option<int>, priceId: string,
                                 create: CheckoutRequest -> StripeReply): (r: SessionOutcome<CheckoutRequest>)
    requires UniqueMembershipKeys(ms)
    ensures r.Refused? <==> RoleRequired(ms, user.id, current, OwnerRole) != Allow
    ensures r.Refused? ==> r.message == RoleRequired(ms, user.id, current, OwnerRole).message
    ensures !r.Refused? ==>
      && current.Some? && Membership(user.id, current.value, OwnerRole) in ms
      && r.request == CheckoutRequest(current.value, user.email, priceId)
      && (r.Opened? <==> create(r.request).SessionUrl?)
      && (r.Opened? ==> r.url == create(r.request).url)
    ensures r.Failed? ==> r.message == CheckoutErrorPrefix + create(r.request).detail
  {
    match RoleRequired(ms, user.id, current, OwnerRole)
    case Deny(message) => Refused(message)
    case Allow =>
      var request := CheckoutRequest(current.value, user.email, priceId);
      match create(request)
      case SessionUrl(url) => Opened(request, url)
      case StripeError(detail) => Failed(request, CheckoutErrorPrefix + detail)
  }

  /** The current organization has a non-empty Stripe customer id. */
  predicate HasCustomer(os: seq<Organization>, id: int) {
    exists i :: 0 <= i < |os| && os[i].id == id && Truthy(os[i].stripeCustomerId)
  }

  /** `customer_portal` behind `role_required("owner")`: refused with no Stripe call
      unless the current organization has a customer id, which is then the one sent. */
  function CustomerPortal(os: seq<Organization>, ms: seq<Membership>, user: User, current: Option<int>,
                          create: string -> StripeReply): (r: SessionOutcome<string>)
    requires UniqueMembershipKeys(ms) && UniqueOrgIds(os)
    ensures RoleRequired(ms, user.id, current, OwnerRole) != Allow ==>
      r == Refused(RoleRequired(ms, user.id, current, OwnerRole).message)
    ensures RoleRequired(ms, user.id, current, OwnerRole) == Allow ==>
      (r.Refused? <==> !HasCustomer(os, current.value))
    ensures r.Refused? && RoleRequired(ms, user.id, current, OwnerRole) == Allow ==>
      r.message == NoSubscriptionMessage
    ensures !r.Refused? ==>
      && current.Some? && Membership(user.id, current.value, OwnerRole) in ms
      && (exists i :: 0 <= i < |os| && os[i].id == current.value && os[i].stripeCustomerId == Some(r.request))
      && r.request != ""
      && (r.Opened? <==> create(r.request).SessionUrl?)
    ensures r.Opened? ==> r.url == create(r.request).url
    ensures r.Failed? ==> r.message == PortalErrorPrefix + create(r.request).detail
  {
    match RoleRequired(ms, user.id, current, OwnerRole)
    case Deny(message) => Refused(message)
    case Allow =>
      match OrgById(os, current.value)
      case None => Refused(NoSubscriptionMessage)
      case Some(i) =>
        assert forall j :: 0 <= j < |os| && os[j].id == current.value ==> j == i;
        if !Truthy(os[i].stripeCustomerId) then Refused(NoSubscriptionMessage)
        else
          var customer := os[i].stripeCustomerId.value;
          match create(customer)
          case SessionUrl(url) => Opened(customer, url)
          case StripeError(detail) => Failed(customer, PortalErrorPrefix + detail)
  }

  /** The correlation round trip: the checkout an owner opens carries the id that, echoed
      back by a committed `checkout.session.completed`, subscribes that owner's
      organization and unlocks `subscription_required` for it. */
  lemma CheckoutCorrelatesWithWebhook(store: Store, user: User, current: Option<int>, priceId: string,
                                      create: CheckoutRequest -> StripeReply,
                                      customer: Option<string>, subscription: Option<string>)
    requires store.Valid()
    requires CreateCheckoutSession(store.memberships, user, current, priceId, create).Opened?
    ensures var r := CreateCheckoutSession(store.memberships, user, current, priceId, create);
            var ev := Event(CheckoutCompleted, EventObject(None, Some(r.request.clientReferenceId), customer, subscription));
            Reconcile(store.organizations, ev).response == Success ==>
              SubscriptionRequired(Reconcile(store.organizations, ev).organizations, current) == Allow
  {
    var r := CreateCheckoutSession(store.memberships, user, current, priceId, create);
    var ev := Event(CheckoutCompleted, EventObject(None, Some(r.request.clientReferenceId), customer, subscription));
    var m := Membership(user.id, current.value, OwnerRole);
    var k :| 0 <= k < |store.memberships| && store.memberships[k] == m;
    assert current.value in OrgIds(store.organizations);
    var i :| 0 <= i < |store.organizations| && store.organizations[i].id == current.value;
    if Reconcile(store.organizations, ev).response == Success {
      WebhookDrivesSubscriptionGate(store.organizations, store.nextOrgId, ev, i);
    }
  }

  /** Once a checkout for an organization has committed with a customer id, its owner
      can open the Customer Portal, and the portal is asked for exactly that customer. */
  lemma {:induction false} PortalAfterCheckout(os: seq<Organization>, nextId: int, ms: seq<Membership>,
                                               user: User, i: nat, ev: Event, create: string -> StripeReply)
    requires OrgsValid(os, nextId) && UniqueMembershipKeys(ms) && i < |os|
    requires Membership(user.id, os[i].id, OwnerRole) in ms
    requires ev.kind == CheckoutCompleted && ev.data.clientReferenceId == Some(os[i].id)
    requires Truthy(ev.data.customer) && Reconcile(os, ev).response == Success
    ensures UniqueOrgIds(Reconcile(os, ev).organizations)
    ensures var r := CustomerPortal(Reconcile(os, ev).organizations, ms, user, Some(os[i].id), create);
            !r.Refused? && r.request == ev.data.customer.value
  {
    ReconcilePreservesValid(os, nextId, ev);
    CheckoutCompletedSubscribes(os, nextId, ev, i);
    var os' := Reconcile(os, ev).organizations;
    assert os'[i].stripeCustomerId == ev.data.customer;
    assert HasCustomer(os', os[i].id);
    var r := CustomerPortal(os', ms, user, Some(os[i].id), create);
    var j :| 0 <= j < |os'| && os'[j].id == os[i].id && os'[j].stripeCustomerId == Some(r.request);
  }
}
