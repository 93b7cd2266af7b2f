# Proofs about the identity-verification backend

These Dafny modules model the stateful core of the backend (refresh-token rotation, organisation
slugs, the Redis counters behind the rate limiter and the velocity checks, the fraud rule engine with
the submission pipeline around it, dashboard aggregation and history paging) and prove what it keeps
over whole runs. `dafny verify dfyconfig.toml` checks everything.

## How the model is built

- Services and repositories that change state are classes over one `Session` (tables and their committed
  copy) or one `Redis` store. Each method is proved against a function of the old state, and the
  theorems are about those functions, run after run.
- Authentication has two layers. At the *service* layer every change stays; at the *request* layer
  `get_db` commits a normal return and restores the old tables on a raise. `Sessions.After` is that step
  and `Requests.AuthEndpoint.Handle` carries it out.
- A Redis key is a count with a deadline and exists strictly before it. Limiter hits and velocity
  updates are touches of one store: the former set the deadline on the first hit, the latter on every one.
- Every lemma carries `{:induction false}`: no proof rests on automatic induction.
- Whatever SQL leaves open is a relation, and the results hold for every answer: the order of ties in
  the history and among rules of equal impact, and the order of grouped rows.

| module | what it models |
|---|---|
| `Common`, `Text`, `Schema` | shared values, ASCII string operations, table rows and the database session |
| `Slugs`, `SlugWords`, `Organizations` | slug normaliser and search, what the normaliser does to words, organisation service |
| `Tokens`, `Auth`, `Requests` | token repository, authentication service, commit and rollback |
| `AuthCalls` | what single authentication calls do, in terms of the stored rows |
| `Sessions`, `SessionTheorems` | runs of the authentication service and what holds over them |
| `TtlStore`, `FixedWindow`, `Counters` | the counter store, deadline set once, deadline pushed out |
| `RateLimiter` | the middleware |
| `FraudRules`, `FraudEngine`, `Verification` | stored rules, evaluation, `submit`, `simulate`, history |
| `Traffic`, `LimiterTheorems`, `Submissions` | mixed runs of requests, submissions and rule changes, and what holds over them |
| `Grouping`, `Dashboard`, `Averages` | grouped counts, statistics and analytics, the daily average |
| `Paging`, `Reports` | history pages; statistics, analytics and history over reachable databases |

## Where code and documentation differ

- `refresh` promises to revoke the whole family on reuse (app/services/auth_service.py:94-95). It does, and
  then raises, and the request rolls the revocation back (app/db/session.py:30-32).
  `ReuseRequestInvalidatesIff` says exactly when the promise still holds, and `ReplayLeavesSessionAlive`
  gives a run where it does not.
- The limiter is called a sliding window (app/middleware/rate_limit_middleware.py:2, 20, 52) but is a fixed one:
  a minute can admit twice the limit (`LimiterBound`, `LimiterBoundIsReached`). `MinuteKeepsLimitIff` says exactly
  when a minute keeps to the limit, in terms of the bucket at its start.
- The velocity check is called a sliding window counter (README.md:89 of the repository) but counts until an hour
  passes without a submission (`VelocityIsChain`, `VelocityOutlivesHour`).
- Rule updates are called org-scoped (app/api/v1/fraud.py:53) but any organisation may change a global rule
  (`UpdateIsScopedIff`, `UpdateReachesGlobal`).
- The `avg_risk_score` of a day is the unweighted mean of the means per decision. It is the mean of the day's scores,
  whatever they are, exactly when all decisions of the day were equally frequent (`AverageIsMeanIff`,
  `AverageIsNotMean`).
- History is ordered by time alone, so pages of separate queries fit together exactly when no page ends between two
  requests of equal time (`PagesFitTogetherIff`); such ties are reachable (`TieIsReachable`).
- `simulate` does not upper-case and trim the PAN as `submit` does (app/schemas/verification.py:23-26), so it can be
  stricter than the submission it foretells (`SimulateIsNoStricterIff`).

## Assumptions

- Requests are served one at a time, each with one clock reading; times are whole milliseconds. Two overlapping
  refreshes of one token are outside the model, as the code has no lock or conditional update.
- SHA-256 is injective. A drawn session id is not empty and not in use (`FreshDraw`); submissions draw distinct
  ids (`FreshIds`). A drawn token may collide with a stored one: the unique column then fails the request.
- Between authentication events the user table may change arbitrarily, but its tokens stay: no code of the
  repository deletes a user.
- A key is taken to be gone at the very millisecond of its deadline. A server that keeps it through that millisecond
  behaves like this model with every lifetime one millisecond longer, and the results that sit on the boundary
  (`LimiterBoundIsReached`, `ClientIsReadmitted`, `MinuteKeepsLimitIff`) shift by that millisecond.
- Redis calls succeed, INCR with its EXPIRE is one step. Runs start from empty tables and
  counters, with any fraud rules.
- Passwords are compared as they are; names, slugs, addresses and PANs are ASCII.

## Model

| member | source | states |
|---|---|---|
| `SessionTheorems.LiveTokenIsNewest` | app/services/auth_service.py:90-135 | In every state of every run, at either layer, a session family has at most one unrevoked token; it is the newest issued in the family, and the family belongs to one user. |
| `SessionTheorems.FamilyIsAChain` | app/services/auth_service.py:116-157 | Every token answers exactly one grant: the first of a family answers none, each later one was issued in exchange for its immediate predecessor, which is revoked and of the same user. |
| `SessionTheorems.ExchangedAtMostOnce` | app/services/auth_service.py:90-128 | Two successful exchanges in one run never present the same refresh token. |
| `SessionTheorems.ExchangesCountTokens` | app/services/auth_service.py:116-157 | n successful exchanges in a family leave it with exactly n + 1 tokens. |
| `SessionTheorems.RowsPersist` | app/repositories/refresh_token_repository.py:32-49 | Over any run token rows are never removed, reordered or re-attributed, and revocation is never undone. |
| `SessionTheorems.ClosedForever` | app/services/auth_service.py:106-128 | A family whose every token is revoked, or expired before all later calls, stays so: it gets no new token and no exchange in it succeeds. |
| `SessionTheorems.RevokedFamilyNeverResumes` | app/services/auth_service.py:106-128 | Once a family has no unrevoked token it never issues a token again. |
| `SessionTheorems.IdleFamilyNeverResumes` | app/services/auth_service.py:115-128 | With a monotone clock, a family whose newest token has expired can never be exchanged in again, although every exchange extends it. |
| `SessionTheorems.ExchangesArePrompt` | app/repositories/refresh_token_repository.py:16-24 | With a monotone clock, successive tokens of a family are issued at most one configured lifetime apart. |
| `SessionTheorems.ReuseEndsFamilyInService` | app/services/auth_service.py:106-113 | In the service alone, presenting a revoked token raises, leaves every token of its family revoked and every other row unchanged, and no later event of the run exchanges in that family. |
| `SessionTheorems.ReuseRequestInvalidatesIff` | app/services/auth_service.py:94-113 | In a request the raise rolls the revocation back: nothing changes, and the promised invalidation of the family holds exactly when its newest token was revoked already. |
| `SessionTheorems.ReplayLeavesSessionAlive` | app/db/session.py:26-32 | For every lifetime of at least 3 ms, a run of four requests, opened by an acceptable registration, in which an exchanged token is replayed and the family is exchanged in again afterwards: the documented invalidation does not survive the rollback. |
| `SessionTheorems.LogoutEndsFamilyIff` | app/services/auth_service.py:130-135 | Logging out with a stored token ends its family for good exactly when that token was the newest or the newest was revoked before. |
| `AuthCalls.RefreshSucceedsIff` | app/services/auth_service.py:100-128 | An exchange succeeds exactly for a stored, unrevoked, unexpired token of an active user, given a new token whose digest is not stored. |
| `AuthCalls.RefreshRefusedBecause` | app/services/auth_service.py:100-126 | Which error a refused exchange raises, each as an equivalence over the stored rows. |
| `AuthCalls.LoginIs` | app/services/auth_service.py:73-88 | A login adds exactly one token, of the one user with that address (in any capitalisation) and password, when that user is active and the new digest unused; otherwise it changes nothing, and which error it raises is an equivalence over the stored users. |
| `AuthCalls.RegisterSucceedsIff` | app/services/auth_service.py:42-71 | A registration succeeds exactly for a new address, given unused ids and an unused new token; each error as an equivalence over the stored rows. |
| `AuthCalls.RegistrationHolds` | app/services/auth_service.py:35-88 | After a registration the registrant is the active admin and owner of the one new organisation, which has the given name and its allotted slug; the address, in any capitalisation, logs in with exactly the chosen password and cannot register again; and the token handed out can be exchanged exactly until it expires. |
| `SessionTheorems.SlugsStayDistinct` | app/services/organization_service.py:32-91 | Over every run of registrations and organisation calls, slugs are pairwise distinct, and no stored organisation is removed or has its slug changed. |
| `Sessions.Reachable` | app/services/auth_service.py:35-157 | The invariant behind these results holds in every state of every run: distinct digests, named families, superseded tokens revoked, rows and grants in correspondence. |
| `Sessions.StepChange` | app/services/auth_service.py:35-157 | Every event changes the token table in one of five ways, each tied to the grant it answers; a row is rotated exactly by a successful refresh. |
| `Sessions.RefreshChange` | app/services/auth_service.py:90-128 | What a refresh leaves in the table in each of its outcomes. |
| `Auth.AuthService.Register` | app/services/auth_service.py:35-71 | The tables and reply after registration: the checks in order, organisation, user and owner, then the first token. |
| `Auth.AuthService.Login` | app/services/auth_service.py:73-88 | The tables and reply after login, with its two refusals. |
| `Auth.AuthService.Refresh` | app/services/auth_service.py:90-128 | The tables and reply after refresh, revocations made before a raise included. |
| `Auth.AuthService.Logout` | app/services/auth_service.py:130-135 | Logout revokes the presented token if stored and live, and never fails. |
| `Auth.AuthService.IssueTokens` | app/services/auth_service.py:141-163 | The new row joins the given session or opens a drawn one. |
| `Requests.AuthEndpoint.Dispatch` | app/api/v1/auth.py:22-44 | The imperative service computes the outcome the runs are built from, for every call. |
| `Requests.AuthEndpoint.Handle` | app/db/session.py:21-34 | A request commits on a normal return and restores the stored tables on any raise: the step the theorems at the request layer are about. |
| `Schema.Session.Commit` | app/db/session.py:28-29 | What the session sees becomes what is stored. |
| `Schema.Session.Rollback` | app/db/session.py:30-32 | The session sees what was stored. |
| `Tokens.RevokeFamily` | app/repositories/refresh_token_repository.py:43-49 | Exactly the rows of the family become revoked; nothing else changes. |
| `Tokens.FindHash` | app/repositories/refresh_token_repository.py:26-30 | Finds a row with the digest if there is one. |
| `Tokens.RefreshTokenRepository.CreateToken` | app/repositories/refresh_token_repository.py:16-24 | Adds an unrevoked row with the expiry, unless the digest is stored. |
| `Tokens.RefreshTokenRepository.GetByHash` | app/repositories/refresh_token_repository.py:26-30 | Non-negative exactly when some row has the digest; with distinct digests it is the position of that one row. |
| `Tokens.RefreshTokenRepository.Revoke` | app/repositories/refresh_token_repository.py:32-33 | Revokes one row and changes nothing else. |
| `Tokens.RefreshTokenRepository.RevokeSession` | app/repositories/refresh_token_repository.py:43-49 | The loop revokes exactly the rows of the session. |
| `Slugs.SlugifyGivesSlug` | app/services/organization_service.py:18-24 | Every name is turned into lower-case letters and digits in groups separated by single dashes, with none at the ends. |
| `Slugs.SlugifyFixedPoints` | app/services/organization_service.py:18-24 | The slugs are exactly the fixed points of the normaliser, so it is idempotent. |
| `SlugWords.SlugifyJoins` | app/services/organization_service.py:18-24 | Names joined by any run of whitespace, underscores and dashes have their slugs joined by one dash, an empty one left out. |
| `SlugWords.SlugsJoin` | app/services/organization_service.py:18-24 | Two slugs with any run of breaks between them give both with one dash between. |
| `SlugWords.SlugifyDrops` | app/services/organization_service.py:21 | A character that is neither a word character nor a break might as well not be there. |
| `SlugWords.SlugifyIgnoresCase` | app/services/organization_service.py:20 | Capitals do not matter. |
| `SlugWords.BreaksAre` | app/services/organization_service.py:22 | Which characters are breaks. |
| `Text.DecimalRoundTrip` | app/services/organization_service.py:89 | Reading a rendered suffix back gives the number. |
| `Slugs.CandidatesDiffer` | app/services/organization_service.py:86-90 | Different suffixes give different candidates. |
| `Slugs.CandidateIs` | app/services/organization_service.py:86-90 | The k-th candidate is the base, or the base, a dash and the plain decimals of k. |
| `Slugs.SomeCandidateFree` | app/services/organization_service.py:84-91 | N stored slugs cannot cover N + 1 candidates. |
| `Slugs.SearchFrom` | app/services/organization_service.py:84-91 | The search ends at a free candidate with every earlier one taken, within the number of stored slugs. |
| `Slugs.UniqueSlugIsSlug` | app/services/organization_service.py:33-34 | The allotted slug is in normal form exactly unless the normalised name is empty and the empty slug taken. |
| `Organizations.OrganizationService.AllotSlug` | app/services/organization_service.py:84-91 | The loop terminates within N + 1 probes for N stored slugs and returns the unused candidate with the least suffix. |
| `Organizations.OrgStepKeepsSlugs` | app/services/organization_service.py:32-82 | Creation, update and deactivation keep slugs distinct and never change a stored one. |
| `Organizations.CreateOrgIs` | app/services/organization_service.py:32-44 | A creation adds one active organisation with the given fields under a slug no other has. |
| `Organizations.UpdateOrgIs` | app/services/organization_service.py:62-75 | An update by the owner changes the given fields of that one organisation and nothing else; any other requester and any unknown id is refused. |
| `Organizations.DeactivateOrgIs` | app/services/organization_service.py:77-82 | A deactivation clears the flag of that one organisation and changes nothing else. |
| `Organizations.OrganizationRepository.GetBySlug` | app/repositories/organization_repository.py:12-14 | Whether a stored organisation has the slug. |
| `Organizations.OrganizationRepository.Create` | app/repositories/base_repository.py:66-72 | Appends the row unless its id is stored. |
| `Organizations.OrganizationService.CreateOrg` | app/services/organization_service.py:32-44 | The table after a creation: one row more, under the allotted slug. |
| `Organizations.OrganizationService.CreateOrgInternal` | app/services/organization_service.py:46-54 | The same during registration, with a placeholder owner. |
| `Organizations.OrganizationService.UpdateOrg` | app/services/organization_service.py:62-75 | Only the owner changes the given fields; otherwise an error and no change. |
| `Organizations.OrganizationService.DeactivateOrg` | app/services/organization_service.py:77-82 | Clears the active flag of a stored organisation, whoever asks. |
| `LimiterTheorems.LimiterBound` | app/middleware/rate_limit_middleware.py:60-74 | In any time-ordered run of requests, submissions and rule changes, a closed interval of n minutes admits at most (n + 1) times the limit per minute for a client with a key, and (n + 1) times the burst limit for one without. |
| `LimiterTheorems.KthInWindow` | app/middleware/rate_limit_middleware.py:57-74 | The k-th request of a bucket in its open window is admitted exactly when k is at most the limit per minute, for a client with a key, or the burst limit, for one without. |
| `LimiterTheorems.LimiterBoundIsReached` | app/middleware/rate_limit_middleware.py:60-74 | For every limit and every number n of minutes a run that admits exactly (n + 1) times the limit within n closed minutes. |
| `LimiterTheorems.MinuteKeepsLimitIff` | app/middleware/rate_limit_middleware.py:50-74 | The documented sliding window, exactly: after any traffic before `a`, the minute from `a` admits at most the limit whatever traffic follows, if and only if at `a` the bucket has no open window or its count has reached the limit. |
| `LimiterTheorems.ClientIsReadmitted` | app/middleware/rate_limit_middleware.py:69-74 | A client is admitted again a minute after its window opened, however many of its requests were counted in between. |
| `LimiterTheorems.BucketsAreIndependent` | app/middleware/rate_limit_middleware.py:60-74 | In an interleaved run each request is decided as if only its own bucket had ever been used. |
| `RateLimiter.BucketsShared` | app/middleware/rate_limit_middleware.py:57-65 | Two requests share a bucket exactly when both carry keys agreeing on their first 20 characters, or neither does and their addresses agree. |
| `RateLimiter.ClientIpIs` | app/middleware/rate_limit_middleware.py:78-83 | The client address: what stood before the first comma of a forwarded list, trimmed; without one the peer, or "unknown". |
| `RateLimiter.RateLimitMiddleware.CheckRateLimit` | app/middleware/rate_limit_middleware.py:50-74 | The counter moves by one touch of the bucket, and the verdict compares the new count with the limit of the kind of client. |
| `TtlStore.Redis.Incr` | app/middleware/rate_limit_middleware.py:70 | INCR: a live counter goes up and keeps its deadline, any other starts at one without one. |
| `TtlStore.Redis.Expire` | app/middleware/rate_limit_middleware.py:72 | EXPIRE: a live key gets a new deadline. |
| `TtlStore.Redis.Get` | app/services/verification_service.py:184 | GET: zero for an absent key or one past its deadline, otherwise the count its last INCR returned. |
| `TtlStore.PushedOutReads` | app/services/verification_service.py:204-207 | What a later GET reads after INCR and EXPIRE: one more than before until the deadline, then nothing. |
| `TtlStore.ReadingAlone` | app/middleware/rate_limit_middleware.py:70 | Each touch reads what it would read with its key alone in the store. |
| `Submissions.VelocityIsChain` | app/services/verification_service.py:194-212 | The velocity read at any moment of any run is the length of the maximal chain of submissions from the address whose gaps, the last to now included, are all under an hour; it is never below the number in the last hour, and equals it exactly when a full hour passed before the first of those. |
| `Submissions.VelocityOutlivesHour` | app/services/verification_service.py:208-211 | Submissions at 0 and 40 minutes, read at 80, give a velocity of 2 with one of them in the last hour. |
| `Submissions.PhoneSeenIff` | app/services/verification_service.py:180-185 | A phone counts as seen exactly when some submission carried it less than thirty days ago, whatever other phones, addresses and requests did. |
| `Submissions.StatefulRulesFire` | app/services/verification_service.py:62-81 | When the phone and velocity rules fire on a submission, in terms of the earlier submissions alone. |
| `Verification.SubmittedRulesFire` | app/services/verification_service.py:62-81 | When the mail, document and device rules fire on a submission, in terms of the payload as sent. |
| `Counters.CounterIsChain` | app/services/verification_service.py:204-211 | A counter whose deadline every touch pushes out holds the length of the chain of its touches. |
| `Counters.ChainVersusRecent` | app/services/verification_service.py:208-211 | Chain and true recent count: never below, and equal exactly after an idle stretch. |
| `Submissions.ScoresRiseAlongChain` | app/services/verification_service.py:62-102 | Along a whole chain of resubmissions of one payload with gaps under an hour, under the same rules, whatever else happens in between, neither the score nor the severity APPROVED < REVIEW < REJECT ever falls. |
| `Submissions.ResubmissionNeverHelps` | app/services/verification_service.py:62-102 | The same for two submissions less than an hour apart. |
| `Submissions.RowsAreClean` | app/services/verification_service.py:50-99 | After any run every request is completed and has exactly one result, with a score in 0..100 and the decision of that score. |
| `Submissions.StoredAsScored` | app/services/verification_service.py:50-99 | After any run every submission has exactly one request, with its organisation, moment and payload, the PAN upper-cased and trimmed, and exactly one result, with the score, decision, reasons and breakdown it was answered with. |
| `Submissions.ScoreAtIs` | app/services/verification_service.py:67-84 | A submission scores the sum, within 0..100, of the impacts of the rules stored at that moment that are global or own and fire. |
| `Submissions.HistoryShowsScore` | app/services/verification_service.py:165-176 | Every submission shows in the history with the score and decision it was answered with. |
| `Verification.VerificationService.Submit` | app/services/verification_service.py:42-132 | The tables, the counters and the response after a submission. |
| `Verification.VerificationService.CheckPhoneSeen` | app/services/verification_service.py:180-185 | Reads the phone counter. |
| `Verification.VerificationService.GetIpVelocity` | app/services/verification_service.py:194-199 | Reads the address counter. |
| `Verification.VerificationService.UpdateRedisCounters` | app/services/verification_service.py:201-212 | The counters after a submission: one touch for the phone, then one for the address, each only when given. |
| `Verification.SimulatedScoreIs` | app/services/fraud_service.py:117-133 | A simulation scores the stored rules that are global or own and fire on the payload as typed, for an unseen phone, a device not blacklisted and no earlier requests. |
| `Verification.SimulateIsNoStricter` | app/services/fraud_service.py:117-133 | In any counter state a simulation scores and decides no more severely than the submission of the same payload would, unless upper-casing and trimming mends or empties a bad PAN. |
| `Verification.SimulateIsNoStricterIff` | app/schemas/verification.py:23-26 | That condition on the PAN is exact, for the score and for the severity of the decision: for any other PAN some rule set makes the simulation stricter. |
| `Verification.PansThatDisagree` | app/schemas/verification.py:23-26 | Two such PANs: a valid number typed in lower case, and blanks. |
| `FraudEngine.FraudService.EvaluateRules` | app/services/fraud_service.py:50-115 | The loop computes the clamped sum, the reasons in rule order and the breakdown of the triggered active rules. |
| `FraudEngine.RulesFire` | app/services/fraud_service.py:71-106 | When each kind of rule fires: mail at a disposable domain after its first at sign, a PAN not shaped as five capitals, four digits and a capital, a phone seen, a device blacklisted, a velocity at its threshold; an inactive rule and any other type or name never. |
| `FraudEngine.ReasonsInOrder` | app/services/fraud_service.py:110 | Each firing rule gives one reason, its description or else its name, in the place its rule has. |
| `FraudEngine.DecisionBands` | app/services/fraud_service.py:36-42 | The score is in 0..100 and the decisions are the documented bands 0-30, 31-60 and 61-100, of rising severity. |
| `FraudEngine.OrderDoesNotMatter` | app/services/fraud_service.py:71-114 | The sum is the same under any permutation of the rules. |
| `FraudEngine.RaisingNeverLowers` | app/services/fraud_service.py:75-114 | Raising any signal never lowers score or severity. |
| `FraudEngine.AddingNeverLowers` | app/services/fraud_service.py:108-114 | Adding rules anywhere never lowers score or severity. |
| `FraudEngine.BreakdownKeys` | app/services/fraud_service.py:77-111 | A name is in the breakdown exactly when a rule of that name triggers, and only five names ever are. |
| `FraudEngine.BreakdownIsLeast` | app/services/fraud_service.py:108-111 | With rules by descending impact, a breakdown entry is the least impact among the triggered rules of its name. |
| `FraudEngine.BreakdownSum` | app/services/fraud_service.py:108-111 | The entries sum to at most the unclamped score, and to exactly it when no triggered name repeats. |
| `FraudEngine.AnyQueryOrderAgrees` | app/repositories/fraud_rule_repository.py:25 | However the query orders rules of equal impact, score and breakdown are the same. |
| `FraudRules.ActiveRulesIsAnswer` | app/repositories/fraud_rule_repository.py:14-28 | The rules used are the active global and own rules, as a multiset, by descending impact. |
| `FraudRules.ActiveRulesAre` | app/repositories/fraud_rule_repository.py:19-28 | The rules used are the stored rules that are active and global or own, each as often as stored, and no other, by descending impact. |
| `FraudRules.CreateRuleIs` | app/services/fraud_service.py:139-149 | A creation within the schema limits adds the rule to its organisation as given. |
| `FraudRules.UpdateRuleIs` | app/services/fraud_service.py:151-159 | An update changes the given fields of the one rule, when it is global or own, and nothing else. |
| `FraudRules.DeleteRuleIs` | app/services/fraud_service.py:161-165 | A deletion takes out the one rule, when it is own, and nothing else. |
| `FraudRules.ImpactsStayInRange` | app/schemas/fraud.py:17-24 | Over every run of rule calls the stored impacts stay in 0..100. |
| `FraudRules.RuleCallsAreScoped` | app/services/fraud_service.py:139-165 | No call touches another organisation's rules or changes the number of global rules, and only an update can change a global rule. |
| `FraudRules.UpdateIsScopedIff` | app/services/fraud_service.py:151-159 | An update is accepted exactly for own and global rules, and leaves the global rules alone exactly when its rule is not global or already holds the new values. |
| `FraudRules.UpdateReachesGlobal` | app/services/fraud_service.py:151-159 | A concrete accepted update by one organisation after which the global rules differ. |
| `FraudRules.CreateThenDelete` | app/services/fraud_service.py:139-165 | Creating a rule and deleting it restores the table. |
| `FraudRules.UpdatesMerge` | app/services/fraud_service.py:151-159 | Two updates of one rule amount to one in which the later fields win. |
| `FraudRules.FraudRuleService.Create` | app/services/fraud_service.py:139-149 | The stored rules after a creation, and the error. |
| `FraudRules.FraudRuleService.Update` | app/services/fraud_service.py:151-159 | The stored rules after an update, and the error. |
| `FraudRules.FraudRuleService.Delete` | app/services/fraud_service.py:161-165 | The stored rules after a deletion, and the error. |
| `Dashboard.DashboardService.GetAnalytics` | app/services/dashboard_service.py:46-104 | For any answers of the queries, the period, the summary and the series: dates strictly increase, every date with results is there, each point counts its day's results in all and per decision, its average lies within any bounds on the day's scores, and the totals sum to all results of the period. |
| `Dashboard.SeriesAgreesWithCounting` | app/services/dashboard_service.py:69-101 | The same of any series folded from the rows. |
| `Dashboard.DashboardService.CollectByDate` | app/services/dashboard_service.py:69-87 | The loop keeps, for every date met, the accumulator of the rows so far. |
| `Dashboard.DashboardService.AddToEntry` | app/services/dashboard_service.py:80-87 | One row's effect on a date's accumulator. |
| `Dashboard.DashboardService.Aggregate` | app/services/dashboard_service.py:69-101 | One point per date met, in date order. |
| `Dashboard.AverageWithin` | app/services/dashboard_service.py:96-98 | The mean of the per-decision means lies between the least and the greatest score of the day. |
| `Averages.AverageIsMeanIff` | app/services/dashboard_service.py:80-98 | Whatever the scores within the bands of their decisions, a day's point shows the mean of the day's scores exactly when all decisions taken that day were taken equally often. |
| `Averages.AverageIsNotMean` | app/services/dashboard_service.py:96-98 | Two results scored 0 and one scored 90: the point shows 45, the mean is 30. |
| `Dashboard.StatsAgreeWithCounting` | app/repositories/verification_repository.py:44-72 | However the groups come back, total and decision counts agree with counting the results, the rate times the total is 100 times the approved, and the average times the total is the sum of all scores. |
| `Dashboard.PeriodIs` | app/services/dashboard_service.py:48-63 | The analytics of a period look at the results of its last 7, 30 or 90 days, 30 for any other name. |
| `Dashboard.DayIs` | app/services/dashboard_service.py:54 | A day has 86400 seconds, counted from the epoch. |
| `Grouping.GroupsPartition` | app/repositories/verification_repository.py:47-53 | With distinct keys covering the items, the groups of the chosen keys hold exactly the chosen items. |
| `Reports.RecordsAreSubmissions` | app/services/dashboard_service.py:53-63 | In every reachable database the joined records of an organisation are exactly its submissions, in order, with their moments, scores and decisions. |
| `Reports.ReachableStats` | app/repositories/verification_repository.py:44-72 | In every reachable database the total is the number of the organisation's requests, the three decisions add up to it, the rate is a percentage, and the average is that of all its scores and in 0..100. |
| `Reports.ReachableAnalytics` | app/services/dashboard_service.py:46-101 | In every reachable database each point is the sum of its three decisions, with an average in 0..100. |
| `Reports.ReachableAverage` | app/services/dashboard_service.py:46-98 | In every reachable database a point shows the day's mean, whatever the scores, exactly on days of equally frequent decisions. |
| `Paging.PagesFitTogetherIff` | app/repositories/verification_repository.py:29-42 | Pages cut from separate queries put together are the whole history, newest first without gap or repeat, for every way the queries may order ties, exactly when no page ends between two requests of equal time. |
| `Paging.TieRepeatsRow` | app/repositories/verification_repository.py:33 | A tie across the end of a page lets a row appear on two pages. |
| `Reports.TieIsReachable` | app/repositories/verification_repository.py:33 | Two submissions of one moment whose pages of one request can show the first twice and the second never. |
| `Paging.FixedOrderPages` | app/repositories/verification_repository.py:29-42 | With one order for all queries the pages give back exactly that order. |
| `Paging.PageSizes` | app/api/v1/verification.py:51-52 | Every page before the last is full, the last is not empty, and later pages are empty. |
| `Verification.VerificationService.GetHistory` | app/services/verification_service.py:159-177 | The items of one page, the number of requests and the number of pages. |
| `Verification.ItemIs` | app/services/verification_service.py:165-176 | A history item shows the score and decision of the one result of its request, or 0 and PENDING without one. |
| `Verification.VerificationService.ToItems` | app/services/verification_service.py:164-176 | Each row with its result, or score 0 and PENDING without one. |
| `Reports.ReachableHistoryPages` | app/services/verification_service.py:159-177 | The paging equivalence for the history of every reachable database. |

## Left out

- Access tokens, JWT claims and bcrypt: library calls that change no modelled table.
- API keys, `get_me`, `get_org`, `list_rules` and `get_verification`: lookups that would add only easy members.
- The audit log, Celery tasks, e-mail, S3, logging, metrics and `processing_ms`: output without effect on the modelled state.
- Failing Redis or database calls and the fail-open branches of the limiter (app/middleware/rate_limit_middleware.py:44-48, 75-76).
- Paths the limiter skips (app/middleware/rate_limit_middleware.py:27-28): only checked requests are events.
- Column lengths of the database: a value too long for its column fails the request in PostgreSQL; here it is stored.
- Non-ASCII text: Unicode case mapping, word characters and whitespace.
- The list of disposable domains and the device blacklist: parameters of every result, fixed during a run.
- Rule configurations hold integers only; the engine reads one key of them.
- Deletion of users and the cascade to their tokens: nothing in the repository deletes users.
- The request schemas of authentication (password strength, e-mail syntax, name lengths): the runs include calls they refuse.
- Active API keys and member counts in the dashboard statistics: two counts over tables not modelled.
- Rounding of averages and rates to two decimals: both are exact here.
- Auth.AuthService.Register: the organisation row is found as the last one added instead of through the returned object; aliasing of the object is not captured.
- Dashboard.DashboardService.GetAnalytics: the answers of the queries are parameters constrained by what the queries may return, and the loop sits in helper methods.
- Verification.VerificationService.GetHistory: the order of the query is a parameter constrained by what it may return, and the page count of the router is computed here.
- FraudRules.ActiveRulesIsAnswer: `submit` uses one order the query may return; `AnyQueryOrderAgrees` shows that score and breakdown do not depend on it, while the order of the reasons does.
- Submissions.ScoresRiseAlongChain: the rules must be the same at the resubmissions, as changed rules can of course lower a score.
