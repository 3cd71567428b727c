# Identity and billing store of a Flask SaaS boilerplate, in Dafny

This project models the part of the boilerplate that keeps state. It has three tables:

- users, with a unique e-mail address and a unique API key;
- organizations, with a unique Stripe customer id and a unique subscription id;
- memberships, keyed by `(user, organization)` and carrying a role.

It also models the operations that read or change those tables:

- the Stripe webhook reconciler, which moves an organization between subscribed and unsubscribed;
- the owner-only Checkout and Customer Portal initiators;
- the three access gates: subscription, role and bearer API key;
- the account flows: registration, login, e-mail confirmation, password reset, find-or-create from OAuth, and the `create-admin` command.

The files and modules are:

- `prelude.dfy` (`Prelude`): optional values, Python truthiness of strings, the "first matching row" query, and Python's `str.split` on one separator.
- `crypto.dfy` (`Crypto`): the library calls.
  - werkzeug password hashing and the itsdangerous timed serializer are parameters, records of functions.
  - Their contracts are ghost predicates, `SoundHasher` and `SoundSerializer`. Only lemmas assume them.
  - `secrets.token_hex` is the hexadecimal encoding of a byte string drawn from a parameter.
- `models.dfy` (`Models`): the row types and the table constraints (`Store.Valid`).
  - Per-user decisions: password check, token verification, confirmation.
  - Queries, and the `Store` class holding the tables, the id counters and the mail queue.
  - `find_or_create_from_oauth`, and the shared "add user, organization and owner membership, then commit" step.
- `decorators.dfy` (`Decorators`): the gates as decisions. `Allow` runs the wrapped handler; `Deny` carries the message returned instead.
- `payments.dfy` (`Payments`): webhook dispatch, a pure `Reconcile`/`Deliver` plus the `StripeWebhook` handler on the store, and the two session initiators.
- `auth.dfy` (`Auth`): the routes of app/auth.py as methods on the store, and `Login` as a decision.
- `manage.py` is modelled by `manage.dfy` (`Manage`): `create_admin`.

Database conventions in the model:

- A table is a sequence of rows in insertion order.
- `query.filter_by(...).first()` and `query.get(...)` return the index of the first matching row.
- An in-place change of an ORM object's fields replaces its row.
- A commit that a unique constraint refuses gives an explicit commit-error outcome and leaves the store as it was.

`current_user.current_organization` is not defined anywhere in the modelled code. It is an input: an optional organization id per request. An id that names no organization row is treated like no organization by the subscription gate and the portal; the role gate denies it because no membership can reference it.

## Model

| member | source | states |
|---|---|---|
| Prelude.FindFirst | app/auth.py:23 | `.first()` gives the first row satisfying the filter, or none when no row does |
| Prelude.SplitOn | app/auth.py:32 | `str.split(sep)` yields at least one field and no field contains the separator |
| Prelude.JoinSplit | app/auth.py:32 | joining the fields of a split with the separator gives back the string |
| Prelude.SplitHead | app/auth.py:32 | the first field is a prefix of the string, ending at its end or at the first separator |
| Prelude.SplitAfterField | app/decorators.py:57 | a separator-free prefix followed by the separator is the first field, and the rest splits on its own |
| Crypto.HexEncode | app/models.py:176 | the hex text of n bytes has 2n characters, all lower-case hex digits |
| Crypto.HexDecodeEncode | app/models.py:176 | hex decoding inverts hex encoding |
| Crypto.HexEncodeInjective | app/models.py:176 | distinct byte strings give distinct keys |
| Crypto.TokenHex | app/models.py:176 | `token_hex(n)` is 2n hex digits |
| Models.UniqueAcceptsPreserves | app/models.py:16-26 | writing back a row under the same id that no other row clashes with on customer or subscription id keeps the organizations table valid and its id set unchanged |
| Models.NewUser | app/models.py:173-176 | a constructed user always has an API key: the supplied one, otherwise 64 hex characters; `confirmed` and `is_admin` are as passed, and the password hash and confirmation time are empty |
| Models.GeneratedKeysDiffer | app/models.py:173-176 | two users built from different random draws get different API keys |
| Models.CheckPassword | app/models.py:76-83 | an absent or empty hash accepts no password; acceptance is the hasher's check of the stored hash |
| Models.SetPassword | app/models.py:72-74 | only the hash changes, and with a sound hasher the new password then checks |
| Models.VerifyToken | app/models.py:134-146 | the payload's user id when the serializer loads the token; expired, bad-signature and any other failure all give none |
| Models.TokenRoundTrip | app/models.py:85-97 | a token loads back to its user id within its age limit under its own salt, and to nothing under another salt |
| Models.Confirm | app/models.py:103-111 | succeeds iff the token verifies under 'email-confirm' within 3600 s to this user's id; then confirmed is set with the confirmation time, otherwise the user is unchanged |
| Models.ConfirmTokenPurpose | app/models.py:99-105 | a confirmation token confirms its user within the hour; a reset token for the same user never does |
| Models.VerifyResetToken | app/models.py:117-132 | the row of the user a 'password-reset' token names (1800 s), or none when the token fails or names no user |
| Models.ResetTokenPurpose | app/models.py:113-132 | a reset token finds its user within half an hour; a confirmation token finds nobody |
| Models.Store.constructor | app/models.py:16-67 | an empty store satisfies every table constraint |
| Models.AppendUserValid | app/models.py:51-64 | a user with a fresh id, unused e-mail and unused key keeps the users table valid |
| Models.AppendOrgValid | app/models.py:16-26 | a new organization without Stripe ids keeps the organizations table valid |
| Models.ReplaceUserValid | app/models.py:51-64 | replacing a user row with one keeping id, e-mail and key keeps the table valid |
| Models.FreshOrganization | app/models.py:16-26 | `Organization(name=...)` is unsubscribed and has no Stripe ids |
| Models.AppendMembershipValid | app/models.py:33-37 | a membership linking a new user to a new organization keeps the foreign keys and the composite key valid |
| Models.AddOwnedAccount | app/auth.py:38-41 | user, organization and owner membership are committed together, or not at all when the API key clashes |
| Models.FindOrCreateFromOAuth | app/models.py:148-171 | an existing address returns that user, not created, with nothing changed; otherwise one password-less user is appended and returned as created |
| Models.OAuthTwice | app/models.py:162-171 | two sign-ins with the same address create at most one user |
| Decorators.SubscriptionRequired | app/decorators.py:8-20 | admits iff a current organization exists and is subscribed; every denial carries the subscription message |
| Decorators.UserMemberships | app/decorators.py:35 | `current_user.memberships` holds exactly the user's membership rows |
| Decorators.RoleRequired | app/decorators.py:22-44 | the required role defaults to 'owner'; no current organization is denied with its own message; otherwise admits iff the user's membership there has exactly the required role, with no hierarchy |
| Decorators.BearerKey | app/decorators.py:57 | the second space-separated field is the text after "Bearer " up to the next space |
| Decorators.BearerKeyOf | app/decorators.py:54-57 | "Bearer " plus a key without spaces yields that key |
| Decorators.ApiKeyRequired | app/decorators.py:46-65 | 401 "missing or invalid" without a bearer header; 401 "Invalid API key" iff no user holds the key; otherwise the user holding it |
| Decorators.ApiKeyAuthenticates | app/decorators.py:57-63 | a stored user presenting its own key is authenticated as that user |
| Payments.Reconcile | app/payments.py:112-139 | only the targeted organization can change; ids never change; a refused commit leaves the table as it was |
| Payments.Deliver | app/payments.py:98-139 | a missing secret gives 500 and a rejected signature or payload gives 400, both with the table unchanged; only a verified event reaches dispatch |
| Payments.StripeWebhook | app/payments.py:95-139 | the handler's response and new organizations table are those of `Deliver`; users and memberships are untouched and the store stays valid |
| Payments.ReconcilePreservesValid | app/payments.py:124-137 | every delivery keeps the organizations table valid and its set of ids, so memberships stay linked |
| Payments.CheckoutCompletedSubscribes | app/payments.py:116-127 | a completed checkout naming an existing organization stores the event's customer and subscription ids and marks it subscribed, or fails the commit with nothing changed |
| Payments.SubscriptionDeletedUnsubscribes | app/payments.py:130-137 | a deletion whose customer an organization holds unsubscribes it and clears its subscription id, keeping the customer id |
| Payments.LookupMissIsNoOp | app/payments.py:121-123 | no or unmatched client reference, or no or unmatched customer: table unchanged and success |
| Payments.UnknownEventIgnored | app/payments.py:116-139 | any other event type changes nothing and succeeds |
| Payments.ReconcileIdempotent | app/payments.py:124-136 | applying an event twice gives the same response and table as once |
| Payments.DeliverIdempotent | app/payments.py:98-139 | a re-delivered request gives the same response and table as the first delivery |
| Payments.RejectedBeforeAnyLookup | app/payments.py:100-110 | the 500 and 400 rejections do not depend on the table and leave it unchanged |
| Payments.StaleDeletionCancelsCurrentSubscription | app/payments.py:133-136 | a deletion carrying an older subscription id still cancels the organization's current subscription |
| Payments.WebhookDrivesSubscriptionGate | app/payments.py:124-136 | after a committed checkout the organization passes `subscription_required`; after a deletion it fails it |
| Payments.CreateCheckoutSession | app/payments.py:36-63 | refused iff the owner gate denies, with its message; otherwise the request carries the current organization's id as client reference and the user's e-mail, an opened session redirects to the URL Stripe returned, and a Stripe error is flashed as "Error creating checkout session: " plus its text |
| Payments.CustomerPortal | app/payments.py:69-89 | refused by the owner gate, or with "no subscription to manage" iff the organization has no customer id; otherwise Stripe is asked for exactly that customer, an opened session redirects to the URL Stripe returned, and a Stripe error is flashed as "Error accessing customer portal: " plus its text |
| Payments.CheckoutCorrelatesWithWebhook | app/payments.py:48 | the client reference of an opened checkout, echoed by a committed completion event, unlocks `subscription_required` for the same organization |
| Payments.PortalAfterCheckout | app/payments.py:75-81 | after a committed checkout with a customer id, the owner's portal request is not refused and names that customer |
| Auth.LocalPart | app/auth.py:32 | the text before the first '@', or the whole address |
| Auth.LocalPartWithoutAt | app/auth.py:32 | an address without '@' is its own local part |
| Auth.LocalPartOf | app/auth.py:32 | for "name@domain" with no '@' in name, the local part is name |
| Auth.Login | app/auth.py:52-68 | succeeds iff the user with that address accepts the password; the same outcome for unknown address and wrong password; unconfirmed users go to the unconfirmed page |
| Auth.PasswordlessUserCannotLogIn | app/models.py:81-82 | a user created without a password (OAuth) cannot log in |
| Auth.LoginFindsRow | app/auth.py:57-68 | a stored user with the right password is logged in and routed by its confirmation status |
| Auth.RegisteredUser | app/auth.py:28-29 | a registered user is neither admin nor confirmed, and its password checks |
| Auth.Register | app/auth.py:12-47 | mismatch is checked before the duplicate address, and both change nothing; success adds exactly one user, one "<local part>'s Team" organization, one owner membership and one confirmation mail, and both id counters advance by one |
| Auth.RegisteredUserLogsInUnconfirmed | app/auth.py:59-66 | a new registrant's login lands on the unconfirmed page |
| Auth.ConfirmAccount | app/auth.py:81-91 | an already confirmed user changes nothing; otherwise `User.confirm` decides and only that row is saved |
| Auth.ConfirmedUserReachesDashboard | app/auth.py:65-68 | after confirmation the same credentials lead to the dashboard |
| Auth.ResetMailFor | app/auth.py:114-118 | a reset mail exists iff some user has the address, and carries a 'password-reset' token for that user |
| Auth.ForgotPassword | app/auth.py:111-121 | the same message either way; a mail is queued only for a known address |
| Auth.ResetMailLeadsBack | app/auth.py:118-126 | the token in a reset mail, used within half an hour, verifies to the addressee |
| Auth.ResetPassword | app/auth.py:124-142 | an invalid token, a GET and a mismatched pair leave users unchanged; only a valid POST with matching passwords replaces that user's hash |
| Auth.LoginAfterReset | app/auth.py:137-140 | after a reset the new password logs the user in, routed by unchanged confirmation status |
| Manage.AdminUser | manage.py:38-39 | the admin is an administrator, confirmed, without a confirmation time, and its password checks |
| Manage.CreateAdmin | manage.py:30-50 | an existing address changes nothing; otherwise admin, "<local part>'s Organization" and owner membership are committed together, both id counters advance by one, and no mail is queued |
| Manage.AdminLogsInToDashboard | manage.py:38-39 | a new admin logs straight in to the dashboard |

## Left out

- Flask routing, `flash`, `redirect`, `render_template` and HTTP plumbing are reduced to outcome values that name the flashed message or the status.
- The Flask-Login session (`login_user`, `logout`, `unconfirmed`, `resend_confirmation`) is not modelled: `Login` names the user that would be logged in.
- Mail delivery through Celery and Flask-Mail is an append to the store's outbox. The app/email.py module is not part of this model.
- Stripe's signature scheme and session creation are oracle parameters. So are werkzeug hashing (with the random salt as a parameter), the itsdangerous signature, and the entropy behind `token_hex`.
- Time comes in as a parameter: the request's clock for `created_at`, `confirmed_on` and token age.
- Absent form fields (`request.form.get` returning None) are not modelled; every field is a string.
- Logging is not modelled: `current_app.logger` calls in app/payments.py (lines 62, 88, 102, 109) and the `click.secho` messages of manage.py (lines 34, 50) have no effect on the store or the outcome.
- Column length limits (`String(120)` and similar) are not enforced.
- Payments.Target: the webhook's `client_reference_id` is taken as the integer the checkout sent; Stripe's string form and the ORM's coercion of it in `query.get` are not modelled.
- Payments.CreateCheckoutSession: the request records the client reference, e-mail and price id; the other fixed arguments (mode, quantity, return URLs) are left out.
- Payments.CustomerPortal: the fixed return URL (the dashboard) is left out; the request records the customer id only.
- Payments.CreateCheckoutSession: the handler's own "not part of any organization" branch is unreachable behind the owner gate and has no separate outcome.
- Concurrency and ordering across webhook deliveries are not modelled; each request runs alone.
- `generate_token` ignores its `expires_sec` argument; the age limit is applied only when verifying, and the model does the same.
- Deleting rows and ORM cascades are not part of the modelled flows.
- ORM object identity and aliasing are not modelled: an object is the row it maps.
- The OpenAI endpoints (app/api.py, app/features.py, app/routes.py), the admin views and configuration are not part of this model.
