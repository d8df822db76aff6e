# Accounts verification

A Dafny model of the accounts backend: one-time codes over a cache with expiring keys, stateless sessions and password
resets, the support-role migrations, and the username generator. Every theorem is for all inputs, all histories of
calls, or all runs of requests.

## How it is built

| file | what it holds |
|---|---|
| `Text.dfy`, `TtlCache.dfy` | decimal text and colon-separated fields; the cache as an object with a clock and a map from key to value and expiry |
| `OtpKeys.dfy` | the three key builders and the hash input, their injectivity and their exact collisions |
| `OtpHistory.dfy` | what the one-time-code service owes its callers, told from the calls alone, and bounds over every history |
| `OtpService.dfy` | `otp.py` itself, proved to answer as the history demands |
| `Accounts.dfy` | the account protocol: eleven requests over users, cache and tokens, each a function from world to outcome |
| `AccountInvariant.dfy`, `AccountSteps.dfy` | the invariant and its preservation by every request |
| `Sessions.dfy`, `Recovery.dfy`, `Journeys.dfy`, `Bursts.dfy` | the theorems over whole runs |
| `Authority.dfy`, `Histories.dfy` | what each request must show, and from it, for every event of every run, why it happened, told from the log alone |
| `Contract.dfy` | what is owed to each request in every reachable state: when it succeeds and all it changes, from the user table and the log alone, with the limits as numbers |
| `Server.dfy` | the endpoints as methods that update fields in place, each proved to do what its step function says |
| `SupportRoles.dfy`, `Migrations.dfy` | support roles under the rule of `User.clean`; migrations 0003 and 0004 |
| `Usernames.dfy` | `username_regex` and the username generator |

Modelling assumptions:

- A request is one atomic step; the clock moves only between steps. Time is a real number of seconds.
- A cache entry answers while now < expiry, `incr` keeps the expiry, and nothing is evicted early.
- SHA-256 and HMAC are injective: a digest is modelled by its input, a password signature by the pair of user key and
  stored hash. A presented token verifies iff the server signed it.
- Token ids and password salts are drawn from one counter, which stands for their freshness; the order of the counter
  is used only inside proofs.
- A token is refused from its `exp` on (section 4.1.4 of RFC 7519); `exp` is a whole second.
- The phone validator is taken as wide as any reading of `\d` allows, and the e-mail validator as requiring an "@". What
  is proved therefore holds for every narrower validator.
- The password validators and the random draws are inputs of a request. What a code request sends is its return value.
- `World.log` records the events of a run for the statements below; no step reads it.
- The starting state of a run has an empty cache, no token, and any user table that meets the constraints of the model.

## Where the code and its own documentation part

- `accounts/services/tokens.py:161-164` says a revocation record lasts exactly as long as the token. It does so exactly
  when the logout falls on a whole second (`AccountInvariant.RevocationEnd`). Within the token's last second it lasts
  longer, which harms nobody. Otherwise it ends early, and in the rest of its final, truncated second the token is
  accepted again, any number of times. The last logout of the token alone decides (`Sessions.RefreshIff`,
  `Sessions.LogoutRefuses`, `Sessions.LogoutFinalIff`); `Sessions.LoggedOutYetRefreshed` is a run.
- `core/settings.py:231-233` says a user who comes back within 365 days is never logged out. From any reachable state that
  holds exactly when the token was minted on a whole second (`Sessions.YearSufficesIff`), and so on every whole-second
  clock, any number of times over (`Sessions.YearlySession`).
- `accounts/services/otp.py:32-33` limits a phone to three codes in ten minutes. The window is fixed by its first
  request, so from a given moment on the limit holds exactly when the throttle counter does not stand at one or two
  with less than ten minutes to run (`OtpHistory.ThreeInTenMinutesIff`, `Bursts.ThreeSentIff`). A run can send five
  (`Bursts.FiveCodesInTenMinutes`), and never more (`OtpHistory.ThrottleBound`).
- `accounts/services/google_auth.py:68-72` promises a username that follows the project's rule. It does so exactly under
  the condition of `Usernames.CandidateMatchesIff`; `a..b@x.ir` is an address for which it does not.
- `core/settings.py:231-233` also says rotation voids the old refresh token; lines 235-242 say it does not. It does not
  (`Sessions.RotationKeepsPresented`).

## Model

| member | source | states |
|---|---|---|
| OtpKeys.KeysInjective | accounts/services/otp.py:53-62 | each of the three key builders is injective, for every phone and both purposes |
| OtpKeys.KeyCollisions | accounts/services/otp.py:53-62 | the exact collisions between the builders: a code key is an attempts key iff one phone is the other plus ":attempts"; a throttle key never collides |
| OtpKeys.KeysDisjoint | accounts/services/otp.py:53-62 | a colon-free phone meets no collision |
| OtpKeys.HashInputInjective | accounts/services/otp.py:36-49 | for colon-free phones the hash input decodes uniquely, whatever the supplied code contains |
| OtpKeys.ColonPhoneHashClash | accounts/services/otp.py:48 | with a colon in the phone it does not |
| OtpHistory.RedeemableIff | accounts/services/otp.py:116-134 | the declarative condition for a code (latest, unredeemed, under 180 s old, fewer than five wrong codes since) agrees with its fold over the history |
| OtpHistory.DistinctIssues | accounts/services/otp.py:131-133 | two successful verifications of one phone and purpose redeem codes of two different requests |
| OtpHistory.ThrottleBound | accounts/services/otp.py:82-103 | in any half-open 600k seconds of any conforming history a phone is granted at most 3k + 2 codes, both purposes together |
| OtpHistory.MismatchBound | accounts/services/otp.py:82-129 | in any half-open 600k seconds at most 15k + 15 wrong codes are compared for one phone and purpose: thirty in ten minutes |
| OtpHistory.ThreeInTenMinutesIff | accounts/services/otp.py:32-33 | after a conforming history, every conforming continuation grants a phone at most three codes in the next 600 s iff its window is not partly used: opened earlier, still open, and with codes left |
| OtpService.ThrottleExact | accounts/services/otp.py:72-79 | under the cache invariant, is_throttled is true iff three codes were granted in a window opened less than 600 s ago |
| OtpService.VerifyExact | accounts/services/otp.py:106-134 | under the cache invariant, verify_otp is true iff the code is redeemable by the history, and runs its comparison to a mismatch exactly when the history says so |
| OtpService.RequestKeeps | accounts/services/otp.py:82-103 | a request keeps the cache an exact reflection of the history, and its own outcome is the one the history demands |
| OtpService.VerifyKeeps | accounts/services/otp.py:106-134 | so does a verification: while a code is live its counter is the wrong codes since its issue, capped at five, and outlives it |
| OtpService.IdleKeeps | accounts/services/otp.py:82-134 | so do the passing of time and writes to keys of other services |
| OtpService.RequestInterferesNot | accounts/services/otp.py:82-103 | a request changes no verification for another phone or purpose, and no throttle of another phone |
| OtpService.VerifyInterferesNot | accounts/services/otp.py:106-134 | a verification changes no answer for another phone or purpose, and no throttle |
| OtpService.Throttled | accounts/services/otp.py:72-79 | the method reads the throttle counter and answers its specification |
| OtpService.CodesExact | accounts/services/otp.py:90 | the codes are exactly the five-digit texts without a leading zero, and different draws give different codes |
| OtpService.CodeTextExact | accounts/services/otp.py:90 | the code of a draw reads as the number draw + 10000 |
| OtpService.RequestOtp | accounts/services/otp.py:82-103 | the method writes code, counter and throttle as the cache function says, and returns the refusal, or the code: five digits that read as draw + 10000 |
| OtpService.VerifyOtp | accounts/services/otp.py:106-134 | the method compares, counts a miss or clears both keys as the cache function says |
| OtpService.Service.Request | accounts/services/otp.py:82-103 | a code is sent iff the history of calls does not demand a refusal; a refused call leaves the cache as it was |
| OtpService.Service.Verify | accounts/services/otp.py:106-134 | the answer is true iff the code is redeemable by the history of calls |
| AccountInvariant.RevocationEnd | accounts/services/tokens.py:172-180 | the revocation record ends after exp - 1 and before exp + 1, at exp iff now is whole, and before exp iff now is not whole and more than a second is left |
| AccountSteps.RegistrationRowOk | accounts/api/v1/serializers.py:67-107 | the row a registration writes is new or the pending one of its phone, and no other row clashes with it |
| AccountSteps.IdentifierUnique | accounts/api/v1/serializers.py:369-371 | a phone or address identifies at most one user |
| AccountSteps.RegisterKeeps | accounts/api/v1/serializers.py:77-107 | registration keeps the invariant: constraints, token claims, salts, revocations, codes, coupling |
| AccountSteps.VerifyCodeKeeps | accounts/api/v1/serializers.py:121-137 | verify-otp keeps it |
| AccountSteps.RenewKeeps | accounts/api/v1/serializers.py:269-287 | refresh keeps it |
| AccountSteps.LogoutKeeps | accounts/api/v1/serializers.py:306-314 | logout keeps it |
| AccountSteps.ForgotRequestKeeps | accounts/api/v1/serializers.py:393-404 | the first step of password recovery keeps it |
| AccountSteps.ForgotVerifyKeeps | accounts/api/v1/serializers.py:422-433 | the second step keeps it |
| AccountSteps.StepKeeps | accounts/api/v1/views.py:73-336 | every request keeps it, and keeps phones, verified flags and the growth of salts |
| AccountSteps.RunKeeps | accounts/api/v1/views.py:73-336 | every reachable state meets it |
| Sessions.RunContinues | accounts/api/v1/serializers.py:77-107 | along every continuation of a run phones stay and a verified user never becomes unverified |
| Sessions.PasswordEpochSafety | accounts/services/tokens.py:55-104 | after a password was set, no token minted before, nor any derived from one by any number of refreshes, is accepted by authentication, refresh or reset-confirm |
| Sessions.AccessProvenance | accounts/api/v1/authentication.py:28-40 | an accepted access token was minted under 300 s ago through a chain of refreshes, each within the presented token's life, from one login or verify-otp of the same user, with the password unset since |
| Sessions.RevokedIff | accounts/services/tokens.py:172-180 | in every run a token id is revoked iff it was logged out and the record of its last logout, max(int(exp - at), 1) seconds from then, has not run out |
| Sessions.RefreshIff | accounts/api/v1/serializers.py:269-287 | in every run a refresh token is accepted iff it is signed and in its life, its user is active and has the password it was minted under, and the record of its last logout, if any, has run out |
| Sessions.LogoutRefuses | accounts/services/tokens.py:153-180 | in every run the last logout of a token decides: on a whole second or within the last second of life it refuses the token for good; for an active user with an unchanged password the token is accepted again exactly from the end of the record to exp |
| Sessions.LogoutEndsAccess | accounts/services/tokens.py:153-180 | an access token minted directly from a logged-out token and accepted 300 s or more after the logout was minted when the record of the last logout before it had run out, and that logout fell neither on a whole second nor within the last second of life |
| Sessions.WholeClockLogout | accounts/services/tokens.py:153-180 | on a whole-second clock there is no exception, repeated logouts included |
| Sessions.LogoutFinalIff | accounts/api/v1/serializers.py:306-314 | the logout of a live session in any reachable state is final, in every continuation without another logout of the token, iff it falls on a whole second or within the token's last second |
| Sessions.LoggedOutYetRefreshed | accounts/services/tokens.py:172-180 | a run in which a logged-out token is refreshed |
| Sessions.RotationKeepsPresented | core/settings.py:234-242 | a refresh token is still accepted after it was refreshed |
| Sessions.RenewGrantsFullLife | accounts/api/v1/serializers.py:269-287 | an accepted refresh yields an accepted refresh token of the same user with a full new lifetime |
| Sessions.SlidingSession | core/settings.py:229-234 | for any number of refreshes, each within the life of the presented token, with no logout of it, password change or deactivation, none is refused and the last token has a full lifetime |
| Sessions.YearSufficesIff | core/settings.py:231-233 | from any reachable state, every continuation without logout of the token, password change or deactivation that ends within 365 days of its minting is granted a refresh iff the token was minted on a whole second |
| Sessions.YearlySession | core/settings.py:231-233 | on a whole-second clock, any number of such gaps, each under 365 days from the minting of the presented token, is never refused |
| Recovery.CodesAndAccounts | accounts/api/v1/serializers.py:77-137 | in every reachable state a live register code has an unverified, inactive user and a live reset code a verified one |
| Recovery.ActivationBindsPassword | accounts/api/v1/serializers.py:91-137 | verify-otp only turns a pending account active, by a code that was issued in the very registration that set the account's present password |
| Recovery.ResetTraced | accounts/api/v1/serializers.py:393-494 | every reset goes back to a code sent to the user's phone under 780 s before, redeemed within 180 s, used within 600 s, with no password change in between |
| Recovery.IssueOfGrows | accounts/api/v1/serializers.py:393-494 | later resets come from later codes, so the codes behind resets are all different |
| Recovery.ResetTokenOnce | accounts/services/tokens.py:144-146 | a reset token resets once |
| Recovery.ResetBound | accounts/api/v1/serializers.py:393-494 | in any half-open 600k seconds of any run one user's password is reset at most 3k + 4 times |
| Recovery.CodeBounds | accounts/services/otp.py:82-134 | the bounds 3k + 2 and 15k + 15 over every run of requests |
| Recovery.VerifyAnswers | accounts/services/otp.py:72-134 | in every reachable state verification and throttle answer as the run's own calls demand |
| Bursts.ThreeSent | accounts/services/otp.py:72-103 | from any reachable state, whatever requests follow, a phone is sent at most three codes in the next 600 s unless its throttle counter stands at one or two with less than 600 s to run |
| Bursts.ThreeSentIff | accounts/services/otp.py:72-103 | where some request could send the phone a code at present, that is the exact condition: otherwise a continuation sends more than three |
| Bursts.FiveCodesInTenMinutes | accounts/services/otp.py:32-33 | from any starting state, a run of forgotten-password requests for a verified user's phone that sends five codes within ten minutes |
| Histories.VerifiedFromLog | accounts/api/v1/serializers.py:121-137 | in every run a user is verified iff they were at the start or a register code of their phone was redeemed |
| Histories.SetsTraced | accounts/api/v1/serializers.py:77-107 | in every run a password was set by a registration for a user who by the log was not verified, by a reset with its whole path back to a code, or by a change whose access token goes back to a login or verify-otp of the user, under 300 s old and with no set since, and whose old password is the one the log tells |
| Histories.MintsTraced | accounts/api/v1/views.py:73-299 | in every run a token was minted for the password the log tells: by a login that gave it, by a code of the very registration that set it, by a reset code of a user who by the log was verified, or from a refresh token minted before, in its life, and not revoked |
| Histories.SendsTraced | accounts/api/v1/serializers.py:393-404 | in every run a code was asked for by a registration, for the phone of the user it wrote, or for a user who by the log was verified |
| Authority.RowChangeAuthorised | accounts/api/v1/serializers.py:91-137 | in one step a user's row changes only by a registration of its unverified phone, its register code, an accepted reset token, an accepted access token with the old password, or the admin, and only in the fields named; what the histories of rows build on |
| Authority.MintAuthorised | accounts/api/v1/views.py:73-299 | in one step a token is minted only for the right password of an active user, an accepted code of the user's phone, or an accepted refresh token, and with the user's present signature; what MintsTraced builds on |
| Authority.SendAuthorised | accounts/api/v1/serializers.py:393-404 | in one step a code is asked for only by a registration, for its phone, or for an active and verified user the identifier names; what SendsTraced builds on |
| Authority.SessionsWork | accounts/api/v1/serializers.py:177-213 | both tokens a login, verify-otp or refresh hands out are accepted at once, for one user |
| Contract.AccessIff | accounts/api/v1/authentication.py:28-40 | in every run an access token is accepted iff the log minted it under 300 s ago by whole seconds, its user is active, and none of their passwords was set since |
| Contract.RefreshLiveIff | accounts/api/v1/serializers.py:269-287 | the same for a refresh token and 365 days, unless its last logout still counts: for the whole seconds then left, and one at least |
| Contract.ResetIff | accounts/api/v1/serializers.py:458-471 | the same for a reset token and 600 s, whether or not the user is active |
| Contract.RegisterMeets | accounts/api/v1/serializers.py:67-107 | in every run a registration is accepted iff the fields have their shapes, the passwords agree, the policy is content, the phone's window is not full, and every row has another username, is not a verified one of the phone, and has another address unless it is the pending one; then that pending row is overwritten, or one row added, and the password and the code of the draw are logged; otherwise nothing changes |
| Contract.VerifyCodeMeets | accounts/api/v1/serializers.py:121-137 | every verify-otp for the phone of a row with at most six characters is one logged try; it succeeds iff the code is the latest one, not redeemed, under 180 s old and under five wrong tries; then the user is verified and active and a session opens |
| Contract.LoginMeets | accounts/api/v1/serializers.py:177-213 | a login opens a session of the active user named whose password by the log is the one given, and changes no row; otherwise nothing changes |
| Contract.RenewMeets | accounts/api/v1/serializers.py:269-287 | a refresh hands out two new tokens of the same user iff the one presented is live; otherwise nothing changes |
| Contract.LogoutMeets | accounts/api/v1/views.py:185-193 | a logout goes through iff the access token is live and the refresh token unexpired, and logs just that |
| Contract.ForgotRequestMeets | accounts/api/v1/serializers.py:393-404 | the answer never varies; a code is asked for iff the identifier names an active and verified user with a phone, and sent iff the window is not full |
| Contract.ForgotVerifyMeets | accounts/api/v1/serializers.py:422-433 | every request that names a row with a phone, with at most six characters, is one logged try of the reset code; the right one gets a new reset token, and all others a refusal |
| Contract.ForgotConfirmMeets | accounts/api/v1/serializers.py:458-494 | the password is set, and nothing else, iff the token is live, the passwords agree and the policy is content |
| Contract.ChangePasswordMeets | accounts/api/v1/serializers.py:511-537 | the password is set, and nothing else, iff the access token is live, the old password is the one by the log, the new ones agree and differ from it, and the policy is content |
| Contract.FiveTriesLock | accounts/services/otp.py:116-129 | once five requests presented other codes, mixed with anything that has no new code sent, the current code is refused at its endpoint; counted from the requests, for both purposes |
| Journeys.LoginExact | accounts/api/v1/serializers.py:177-194 | in every run a login is granted iff the identifier names an active user whose last set password, told from the log, is the one given |
| Journeys.RegistrationCompletes | accounts/api/v1/serializers.py:77-137 | whatever else happens in between, the code a registration sent opens, within 180 s and unless replaced, redeemed or tried wrongly five times, an active account with exactly the row asked for, and the password asked for is the only one that logs in |
| Journeys.RegistrationOpens | accounts/api/v1/serializers.py:91-107 | every accepted registration sends a code for which those conditions hold at once |
| Journeys.RecoveryGrants | accounts/api/v1/serializers.py:393-433 | under the same conditions the code of a forgotten-password request is exchanged for an accepted reset token of the user |
| Journeys.RecoveryCompletes | accounts/api/v1/serializers.py:458-494 | an accepted reset token sets the password at any later moment of its life unless the password was set in between, changes nothing else, and only the new password logs in |
| Journeys.ChangeCompletes | accounts/api/v1/serializers.py:511-537 | a password change goes through iff the old password is the one that logs in and the new one differs, and then only the new one logs in |
| Journeys.LogoutTakesHold | accounts/api/v1/serializers.py:306-314 | in every run a logout goes through iff the access token is accepted and the refresh token, whoever's, is live; then that token is refused for refresh at once, the answer changes for no other token, and a refused logout changes nothing |
| Server.Api.Authenticate | accounts/api/v1/authentication.py:28-40 | returns the user iff the access token is accepted |
| Server.Api.RevokeRefreshToken | accounts/services/tokens.py:153-175 | writes the revocation record with the truncated remaining life, at least a second |
| Server.Api.ForUser | accounts/services/tokens.py:55-72 | mints a refresh token with the current signature and an access token from it |
| Server.Api.Register | accounts/api/v1/serializers.py:67-107 | the endpoint is the registration step on fields: guards, upsert, password, code |
| Server.Api.VerifyCode | accounts/api/v1/views.py:73-99 | the endpoint is the verify-otp step |
| Server.Api.Login | accounts/api/v1/serializers.py:177-213 | the endpoint is the login step |
| Server.Api.Renew | accounts/api/v1/serializers.py:269-287 | the endpoint is the refresh step |
| Server.Api.Logout | accounts/api/v1/views.py:185-193 | the endpoint is the logout step |
| Server.Api.ForgotRequest | accounts/api/v1/serializers.py:393-404 | the endpoint is the first recovery step; its answer never varies |
| Server.Api.ForgotVerify | accounts/api/v1/views.py:293-299 | the endpoint is the second recovery step |
| Server.Api.ForgotConfirm | accounts/api/v1/serializers.py:458-494 | the endpoint is the third recovery step |
| Server.Api.ChangePassword | accounts/api/v1/serializers.py:511-537 | the endpoint is the password-change step |
| Server.Api.Handle | accounts/api/v1/views.py:73-336 | one object serving any request takes the step of the model and keeps the invariant |
| SupportRoles.StepKeepsRule | accounts/models.py:258-276 | every admin request keeps: a user has a support role iff of type support, and the role exists |
| SupportRoles.RunKeepsRule | accounts/models.py:258-276 | every run keeps it |
| SupportRoles.ChangeRoleExact | accounts/api/v1/serializers.py:348-366 | when a role change is done, and all it does: the row has the type and role given, and every other row, role and column is as it was; any other answer changes nothing |
| SupportRoles.CreateRoleExact | accounts/api/v1/views.py:389-391 | when a role is created: the name has 1 to 50 characters and is free; then a new id stands for it, and nothing else changes |
| SupportRoles.EditRoleExact | accounts/api/v1/views.py:406-410 | when a role is edited: it exists and a name given is free; then the fields given are written, and nothing else |
| SupportRoles.DeleteIff | accounts/api/v1/views.py:412-424 | where the rule holds, deleting a role goes through iff every reference would stand without it, and otherwise changes nothing |
| SupportRoles.ChangeValidIff | accounts/api/v1/serializers.py:348-366 | a role change is accepted iff the account it would write meets User.clean with a known type and an existing active role |
| SupportRoles.Database.ChangeUserRole | accounts/api/v1/serializers.py:348-366 | the method is the role-change step |
| SupportRoles.Database.AddRole | accounts/api/v1/views.py:389-391 | the method is the role-creation step |
| SupportRoles.Database.UpdateRole | accounts/api/v1/views.py:406-410 | the method is the role-edit step |
| SupportRoles.Database.RemoveRole | accounts/api/v1/views.py:412-424 | the method is the deletion step, refused for a role in use |
| Migrations.RunForward3 | accounts/migrations/0003_teaching_assistant_and_support_roles.py:4-16 | the bulk update turns exactly the supervisors into support/general |
| Migrations.RunBackward3 | accounts/migrations/0003_teaching_assistant_and_support_roles.py:19-24 | and back |
| Migrations.SeedDefaultSupportRoles | accounts/migrations/0004_support_role_fk.py:16-27 | the loop seeds the three roles, creating only what is missing |
| Migrations.UnseedDefaultSupportRoles | accounts/migrations/0004_support_role_fk.py:30-39 | deletes the three roles unless PROTECT refuses, and says when it does |
| Migrations.MigrateSupportTypeValuesToFk | accounts/migrations/0004_support_role_fk.py:42-54 | the loop of bulk updates gives every row the role of its own value, whatever the other rounds did |
| Migrations.MigrateFkValuesBackToSupportType | accounts/migrations/0004_support_role_fk.py:57-65 | the reverse loop gives every row the value of its role's name |
| Migrations.RunForward4 | accounts/migrations/0004_support_role_fk.py:84-156 | the whole of 0004 forward |
| Migrations.RunBackward4 | accounts/migrations/0004_support_role_fk.py:84-156 | the whole of 0004 backward; the unseeding is never refused |
| Migrations.RoundTrip4Iff | accounts/migrations/0004_support_role_fk.py:42-65 | 0004 forward then backward restores the table iff every support_type was null or one of the three values |
| Migrations.RoundTrip34 | accounts/migrations/0003_teaching_assistant_and_support_roles.py:4-24 | 0003 and 0004 forward then both backward restore every legacy table |
| Migrations.Forward4Rule | accounts/migrations/0004_support_role_fk.py:42-54 | after 0004 the rule of User.clean holds iff exactly the users of type support had one of the three values |
| Migrations.Forward4Exact | accounts/migrations/0004_support_role_fk.py:9-54 | after 0004 there are active roles of the three names and no other, and each row holds the one for its own value, by literal names and values |
| Migrations.Only3Exact | accounts/migrations/0003_teaching_assistant_and_support_roles.py:4-24 | what 0003 does to each row of any table in either direction, by literal types and values |
| Migrations.Backward4Exact | accounts/migrations/0004_support_role_fk.py:57-65 | what 0004 backward does to each row of any table, by literal names and values |
| Migrations.ForwardExact | accounts/migrations/0003_teaching_assistant_and_support_roles.py:4-16 | both migrations make every supervisor a support user with the active role for general matters and leave everyone else as they were |
| Migrations.MigratedRunsKeepRule | accounts/migrations/0004_support_role_fk.py:42-54 | from a legacy table both migrations establish the rule and every later run of admin requests keeps it |
| Migrations.BackwardAfterRun | accounts/migrations/0004_support_role_fk.py:57-65 | after any run of admin requests, 0004 backward gives each row the value its role's present name stands for, and loses it exactly for support users whose role has none of the three names |
| Migrations.BothBackwardAfterRun | accounts/migrations/0003_teaching_assistant_and_support_roles.py:19-24 | after that, 0003 backward makes supervisors of exactly the holders of the general role by its present name, leaves exactly the other support users as such, and the iff for a row of the first table to come back |
| Migrations.BackwardFitsIff | accounts/migrations/0003_teaching_assistant_and_support_roles.py:19-24 | the table that results is one the first schema could hold iff every support user's role is named as general |
| Usernames.Retry | accounts/services/google_auth.py:79-82 | the loop returns the first candidate that is not taken |
| Usernames.GenerateUniqueUsername | accounts/services/google_auth.py:68-82 | so does the generator, from the cleaned, cut and padded local part |
| Usernames.CandidateMatchesIff | accounts/services/google_auth.py:68-82 | every candidate is 3 to 28 characters of the alphabet without a leading dot, and matches username_regex iff the base has no ".." and no final dot that stays final |
| Usernames.KeepAllowedExact | accounts/services/google_auth.py:74 | cleaning treats each character by itself and keeps exactly the allowed ones |
| Usernames.LocalPartExact | accounts/services/google_auth.py:73 | the local part is what comes before the first "@" |
| Usernames.StripDotsExact | accounts/services/google_auth.py:74 | stripping takes away the dots at both ends, and all of them |
| Usernames.DoubleDotSurvives | accounts/services/google_auth.py:74-78 | an address whose generated name breaks the rule |
| Usernames.UsernameKept | accounts/services/google_auth.py:74-78 | a local part that already is a username of at most 24 characters is kept |

## Left out

- SMS sending, Google token verification, HTTP bodies, cookie attributes and logging: input and output only.
- Request-rate throttles, pagination, filters, permission classes and the admin panel, except that the admin may switch
  an account off: library behaviour or single-branch checks.
- Role and support-role claims of tokens: they are copied and never checked by the accounts endpoints.
- Google sign-in and account linking: the route is disabled; only the username generator is modelled.
- Interleavings inside one request and cache eviction: a request is one step.
- Cryptography and token encoding: idealised as stated above; rehashing of a password on login is a library upgrade path.
- Bursts.ThreeSentIff: where no request could send the phone a code at present, it does not say whether a later one could;
  `Bursts.ThreeSent` holds there too.
- OtpService.VerifyOtp: for a phone with a colon, which the validator excludes, a counter key may hold a digest; the model
  then counts zero where Python would raise a TypeError.
- Usernames.Retry: does not claim that the loop ends, because it depends on random draws; the draws are an input.
- Error messages: refusals are told apart by status only.
- `AccountInvariant` and `AccountSteps` hold further lemmas, one for each part of a step, that only serve `StepKeeps`.
- Nothing was executed.
