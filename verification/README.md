# Verified model of the VITTORIA HOME service

VITTORIA HOME is a NestJS service with a React administration client and two mobile
clients. Furniture orders live in a CRM and are mirrored in the service; customers log in
with one-time codes, follow their orders, receive notifications and chat with managers.
This project models the parts whose guarantees span whole runs and proves them in Dafny.

`dafny verify dfyconfig.toml` checks everything.

## What is modelled

- **Identity** (`Identity`, `IdentityOutcomes`, `AccountLifecycle`, `ContactIds`,
  `SessionChains`, `OtpLimits`, `OlderCodes`, `Phone`).
  Users, one-time codes and sessions are tables; each service method is one atomic step;
  runs are arbitrary sequences of steps with a clock that never goes back. On top of the
  steps stand a ledger of login chains, a pacing argument for codes, and the terminal state
  of anonymised accounts. `IdentityOutcomes` says for each operation when it gives which
  answer and what it writes.
- **Token refresh** (`RefreshProtocol`, `CallOutcomes`, `BootRefresh`, `RefreshLedger`,
  `AndroidRefresh`, `IosRefresh`). The server rotates and revokes the refresh token at every use. The web client shares one
  refresh between concurrent calls, Android compares tokens under a lock, iOS shares a task
  guarded by an actor. Each client is a step protocol against the identity steps, with
  messages that are served, lost and delivered in any order while other clients act.
  `BootRefresh` adds the refreshes that bypass the web client's single flight; `CallOutcomes`
  follows each call of the web client to its end.
- **CRM mirror** (`InsertionMap`, `CrmLens`, `OrderMirror`, `OrderSync`, `OrderHistory`,
  `Failsafe`, `FailsafeMirror`, `Webhook`). The field mapper is a lens over a list of custom fields. Orders, history rows,
  the outbound queue, the worker and the sync form one machine. The poller's moving window
  and the de-duplicated webhook are machines of their own; `FailsafeMirror` runs the poller
  over the mirror.
- **Notifications** (`TtlStore`, `QuietHours`, `Notifications`, `StageNotices`, `Template`).
  One set-if-absent store with a time to live serves both de-duplications; `StageNotices`
  follows a change of stage up to the instant its notification falls due.
- **Chat** (`Paging`, `Conversation`, `ConversationGaps`, `ChatServer`, `ChatAccess`,
  `ChatRefinement`, `ChatRuns`). Who may use a chat, the server's cursor paging, the client's page accumulation and its gaps, the
  refinement that ties them together, and runs of both.
- **Documents** (`LinePatterns`, `HtmlText`, `Markdown`, `MarkdownConverter`,
  `MarkdownPage`, `MarkdownText`, `PlainDocument`). The line-driven Markdown converter: the loop is proved equal to a block
  parser followed by a renderer, characters remember whether they come from the document,
  and a reader of pages says what a browser makes of each block.

Code that changes state step by step is a class whose methods are proved equal to a
specification function on the value of its fields (`Snapshot`, `Tables`); the lemmas are
about those functions. Row ids are positions, instants are integer milliseconds, exceptions
are error values.

## What turned out false, and the exact conditions

- A stage does not survive push and pull when the lead's pipeline status is mapped:
  `CrmLens.StageRoundTripIff` gives the condition, `CrmLens.MappedStatusWins` an input.
- Two updates of an order in one millisecond share a job id and the second job is dropped:
  `OrderMirror.DroppedJobAgreesIff`, shown by `OrderMirror.SecondEntryDropped`.
- A sync that overtakes a pending job reverts the entry unless it repeats the old values
  (`OrderMirror.EarlySyncReverts`), until no job of the deal is left (`OrderMirror.LateSyncHeals`);
  `OrderMirror.EntryLostAndFound` is a run that shows both.
- A failing list call loses the leads edited in an earlier second, and those only
  (`Failsafe.FailedListLosesIff`, shown by `Failsafe.FailedListLosesEdit`); a failing sync
  is not retried unless the lead was edited since its run began (`Failsafe.FailedSyncRetriedIff`,
  shown by `Failsafe.FailedSyncLosesEdit`).
- Older one-time codes come back once the newest is used (`OtpLimits.LoginUncoversOlderCode`),
  exactly when codes live longer than the pace of requests and a millisecond
  (`OlderCodes.OlderCodeAcceptedIff`).
- The boot refresh is not part of the single flight. Every refresh is accepted exactly when
  none starts while another one is under way (`BootRefresh.AcceptedIffNoOverlap`); two tabs
  or, in a development build, strict mode reach an overlap (`BootRefresh.OverlapReached`, `BootRefresh.DoubleBootLogsOut`).
- The CRM can never attach the contact of an anonymised account again
  (`ContactIds.AnonymisedContactStaysBlocked`), and not while a contact's account has another
  phone than the contact: `ContactIds.RefusedIff` gives the condition.
- The comment in `client.ts` speaks of concurrent 401s only; the code also logs out when the
  retry itself meets a network failure (`RefreshProtocol.RetryWithoutNetworkLogsOut`). Nobody
  is logged out exactly when the run is calm: `RefreshProtocol.SignedInIffCalm`.
- A conversation can lose a message between the older pages and the newest one
  (`ConversationGaps.ArrivalDropsAMessage`); `ConversationGaps.ShownIsContiguousIff` gives the
  condition, and `ConversationGaps.EqualTimesHideTheRest` an input of equal times.
- A customer may be told a stale stage last, for three reasons: a second notification of one
  kind within a minute is skipped (`StageNotices.SecondChangeNotTold`), readiness entered at
  night overtakes a change of stage that waits for the morning (`StageNotices.ReadinessOvertakes`),
  and a sync that moves an order notifies nobody (`StageNotices.SyncIsSilent`).
  `StageNotices.StepTellsIff` gives the condition for a step, `StageNotices.ToldIffLastMoveTold` for a run.
- The poller does not bring every order in step with its lead: an entry whose job was dropped
  can stay unnoticed (`FailsafeMirror.DroppedEntryStays`), and `FailsafeMirror.RestAgreesIff`
  gives the condition over all runs.
- The mapper's comment promises that services which are no JSON leave the order's alone; the
  sync then writes none (`OrderSync.BadServicesEraseIff`).
- The seconds told after a code was sent can be one instant short
  (`IdentityOutcomes.ToldSecondsAreNotEnough`); `IdentityOutcomes.RetryAfterIsEnough` gives
  the exact time.
- A document shows all its text only if its fences are even in number
  (`Markdown.ClosedIffEven`); otherwise everything from the last fence on is lost
  (`Markdown.OpenFenceDropsTail`, shown by `Markdown.OpenFenceShowsNothing`), and an empty
  line separates nothing behind an open fence (`Markdown.BlankLineSplits`).

## Model

| member | source | states |
|---|---|---|
| RefreshProtocol.RefreshesPresentTheLiveSession | apps/admin/src/api/client.ts:30-99 | in every interleaving of any number of calls, answers, losses and foreign steps at most one refresh is under way, and one that reaches the server presents the chain's live session: it is accepted iff token and session have not expired, never refused as revoked |
| RefreshProtocol.WaitersShareTheNewToken | apps/admin/src/api/client.ts:79-81 | when a refresh succeeds every call that waits for it retries with the same new token, which the tab now holds; the in-flight marker is cleared and no other call is touched |
| RefreshProtocol.SignedInIffCalm | apps/admin/src/api/client.ts:75-99 | over every run nobody is logged out iff no refresh message is lost, token and session last until they are served, and no retry meets a 401 or a network failure |
| RefreshProtocol.RetryWithoutNetworkLogsOut | apps/admin/src/api/client.ts:80-86 | a call whose refresh went well and whose retry finds no network logs the tab out of a live session |
| RefreshProtocol.LostRefreshEndsTheSession | apps/admin/src/api/client.ts:82-85 | a refresh that fails clears the tab's tokens and ends every waiting call, and nothing is presented again |
| RefreshProtocol.RefreshesBoundedByCalls | apps/admin/src/api/client.ts:35-42 | the refreshes ever started number at most the calls that got their first answer |
| CallOutcomes.OutcomesFollowAnswers | apps/admin/src/api/client.ts:75-99 | in every run a call ends well iff the last answer it got is a success, is refused iff that answer is another status or a 401 that it was begun not to act on, reports the network iff its first attempt got no answer, and reports the session iff its refresh failed or its retry met a 401 or no network; a call with skipAuthRetry never waits for a refresh |
| CallOutcomes.RefreshStartedIff | apps/admin/src/api/client.ts:35-42 | a step sends a refresh iff a call that acts on it meets a first 401 with no refresh under way and a token stored, and it then presents that token |
| CallOutcomes.TokensGoIffExpired | apps/admin/src/api/client.ts:82-90 | the tab forgets its tokens iff a call is told that the session is over, takes the pair that a refresh brings, and keeps them at every other step |
| BootRefresh.AcceptedIffNoOverlap | apps/admin/src/auth/AuthProvider.tsx:37-62 | with nothing lost and nothing expired, in every run of one tab together with boot effects and other tabs on the same storage the server accepts every refresh iff none starts while another one is under way |
| BootRefresh.OverlapIsFatal | apps/admin/src/auth/AuthProvider.tsx:39-47 | a refresh that starts while another one is under way costs a refusal in every continuation: the two carry one token, or the new one carries a token just rotated |
| BootRefresh.OverlapReached | apps/admin/src/auth/AuthProvider.tsx:21-47 | from every login a call that meets a 401 while another tab boots leads to two requests with the login's token, one of which is refused |
| BootRefresh.DoubleBootLogsOut | apps/admin/src/main.tsx:5-9 | two runs of the boot effect, as strict mode makes in a development build, end with an empty storage although the session is live |
| BootRefresh.BootEffect.Start | apps/admin/src/auth/AuthProvider.tsx:38-46 | what the effect sends is the request that the site then has under way, and it sends one iff the model's event starts a refresh |
| BootRefresh.BootEffect.Land | apps/admin/src/auth/AuthProvider.tsx:46-58 | the answer stores the pair, or clears the session unless the effect was cleaned up |
| RefreshLedger.ClientHoldsTheLiveSession | apps/api/src/auth/auth.service.ts:146-189 | in every run of the web protocol the session that the tab's refresh token names is the one live session of its login's chain |
| RefreshLedger.LoginTies | apps/api/src/auth/auth.service.ts:114-139 | a login starts a chain with the client's session as its live member |
| RefreshProtocol.SecondUseRefused | apps/api/src/auth/auth.service.ts:156-159 | a rotated token is refused at its next use whatever step comes between |
| RefreshProtocol.LoginEstablishesInv | apps/admin/src/auth/AuthProvider.tsx:64-70 | the pair a login stores puts the tab in the protocol's invariant |
| RefreshProtocol.ExecuteKeepsInv | apps/admin/src/api/client.ts:30-99 | every run of the protocol keeps the invariant |
| RefreshProtocol.ApiClient.Refresh | apps/admin/src/api/client.ts:35-42 | the method on the client's fields is the specified step: join the refresh in flight, or start one with the stored token, or reject |
| RefreshProtocol.ApiClient.Begin | apps/admin/src/api/client.ts:75-76 | a call starts with the current access token |
| RefreshProtocol.ApiClient.OnAnswer | apps/admin/src/api/client.ts:78-95 | the first answer finishes the call, or makes it wait for the shared refresh, or ends the session |
| RefreshProtocol.ApiClient.OnSettled | apps/admin/src/api/client.ts:36-39 | settling stores the pair, clears the marker and resumes every waiter |
| RefreshProtocol.ApiClient.OnRetryAnswer | apps/admin/src/api/client.ts:80-95 | a second 401 or a failing retry clears the session; a retry is never retried |
| RefreshProtocol.ApiClient.ClearSession | apps/admin/src/auth/AuthProvider.tsx:14-19 | both tokens are forgotten |
| AccountLifecycle.ServeLiveToken | apps/api/src/auth/auth.service.ts:146-189 | serving the token of a live session rotates it into another live session that its holder can use, unless token or session has expired, in which case nothing changes |
| AccountLifecycle.StepKeepsHeldSession | apps/api/src/auth/auth.service.ts:146-196 | steps of others leave a held session usable unless they revoke it |
| AndroidRefresh.OneRefreshPerAccessToken | apps/android/app/src/main/java/app/vittoria/client/data/auth/TokenAuthenticator.kt:26-71 | requests that failed with one access token cause at most one refresh in any run |
| AndroidRefresh.SignedInIffCalm | apps/android/app/src/main/java/app/vittoria/client/data/auth/TokenAuthenticator.kt:26-71 | in every run the device stays signed in iff each refresh that it makes is answered before token and session run out |
| AndroidRefresh.OtherRequestsRefresh | apps/android/app/src/main/java/app/vittoria/client/data/auth/TokenAuthenticator.kt:42-71 | a failed request that carries the stored token or none makes one refresh; if it goes well the request is sent again with the new access token of the session that replaced the old one, otherwise the request is given up and both tokens are gone |
| AndroidRefresh.OutdatedRequestRetries | apps/android/app/src/main/java/app/vittoria/client/data/auth/TokenAuthenticator.kt:35-40 | a request that failed with another token than the stored one is sent again with the stored one, and nothing else happens |
| AndroidRefresh.RefreshesPresentTheLiveSession | apps/android/app/src/main/java/app/vittoria/client/data/auth/TokenAuthenticator.kt:42-71 | whatever was lost before, the stored refresh token belongs to the live session and is accepted iff it has not expired |
| AndroidRefresh.LoginEstablishesInv | apps/android/app/src/main/java/app/vittoria/client/data/auth/TokenAuthenticator.kt:57-58 | a login puts the device in the invariant |
| AndroidRefresh.TokenAuthenticator.Authenticate | apps/android/app/src/main/java/app/vittoria/client/data/auth/TokenAuthenticator.kt:26-71 | the synchronized method is the specified step: retry with a newer token, or refresh, or clear |
| IosRefresh.RefreshesPresentTheLiveSession | apps/ios/VittoriaClient/Networking/APIClient.swift:100-138 | in every interleaving of the actor's stretches at most one refresh task runs and the one at the server presents the live session |
| IosRefresh.LateJoinerUsesStoredPair | apps/ios/VittoriaClient/Networking/APIClient.swift:101-105 | a call that joins a task already ended goes on with the stored pair and starts no second refresh |
| IosRefresh.SignedInIffCalm | apps/ios/VittoriaClient/Networking/APIClient.swift:100-138 | in every interleaving the app stays signed in iff no refresh message is lost and token and session last until they are served |
| IosRefresh.LoginEstablishesInv | apps/ios/VittoriaClient/Networking/APIClient.swift:127 | a login puts the app in the invariant |
| IosRefresh.ApiClientActor.OnUnauthorized | apps/ios/VittoriaClient/Networking/APIClient.swift:58-59 | a 401 joins the current task or starts one |
| IosRefresh.ApiClientActor.OnReadToken | apps/ios/VittoriaClient/Networking/APIClient.swift:107-115 | the task reads the stored token, or clears and fails when there is none |
| IosRefresh.ApiClientActor.OnComplete | apps/ios/VittoriaClient/Networking/APIClient.swift:117-131 | the answer stores the new pair or clears the store |
| IosRefresh.ApiClientActor.OnResume | apps/ios/VittoriaClient/Networking/APIClient.swift:134-137 | a waiting call resumes with the task's outcome, and the starter clears the task variable |
| IosRefresh.ApiClientActor.OnBuildRetry | apps/ios/VittoriaClient/Networking/APIClient.swift:60-63 | the retry is built with the access token current at that moment |
| IosRefresh.RetryCarriesLiveAccess | apps/ios/VittoriaClient/Networking/APIClient.swift:58-63 | whatever happens between resuming and building the retry, the retry carries an access token of the live session, or none when the store was cleared, unless an answer waits to be stored at that moment |
| IosRefresh.LoginFitsAccess | apps/ios/VittoriaClient/Networking/APIClient.swift:127 | a login stores an access token of its session |
| Identity.RunKeepsConsistent | apps/api/prisma/schema.prisma:17-54 | every run keeps phones unique and in stored form, every code's phone registered and every session owned |
| Identity.ReachablePhonesDiffer | apps/api/src/amocrm/amocrm-sync.service.ts:36-42 | in every reachable store no two users have phones with one normal form, foreign numbers included |
| Identity.IdentityService.RequestCode | apps/api/src/auth/auth.service.ts:26-68 | the method is the specified step, with its error order |
| Identity.IdentityService.VerifyCode | apps/api/src/auth/auth.service.ts:70-144 | the method is the specified step: lookup, lock, compare, consume, upsert, new session |
| Identity.IdentityService.Refresh | apps/api/src/auth/auth.service.ts:146-189 | the method is the specified step, with the reuse branch that revokes |
| Identity.IdentityService.Logout | apps/api/src/auth/auth.service.ts:191-196 | the method is the specified step |
| Identity.IdentityService.Anonymize | apps/api/src/users/users.service.ts:32-48 | the method is the specified step: sessions revoked, codes deleted, phone nulled |
| Identity.IdentityService.CreateUser | apps/api/src/users/admin-users.service.ts:30-47 | the method is the specified step, with both rejections |
| AccountLifecycle.LoginFindsRegisteredUser | apps/api/src/auth/auth.service.ts:103-112 | the upsert of a login never creates a user, and the user logged in is the one who has the phone |
| AccountLifecycle.RevokedSessionsStayRevoked | apps/api/src/auth/auth.service.ts:156-186 | sessions are never deleted, never change owner or secret, and revocation is for ever, over every run |
| AccountLifecycle.RefreshTokenWorksOnce | apps/api/src/auth/auth.service.ts:156-186 | after it was accepted once, a refresh token is refused after every continuation |
| AccountLifecycle.LoggedOutTokenIsRefused | apps/api/src/auth/auth.service.ts:191-196 | after a logout no token of that session is accepted in any continuation |
| SessionChains.LogoutEndsChain | apps/api/src/auth/auth.service.ts:191-196 | a logout ends exactly the session it names: its login's chain has ended, every other chain and session is as it was, and its user has one live session less |
| IdentityOutcomes.RequestedCodeLogsIn | apps/api/src/auth/auth.service.ts:26-144 | the code that was sent logs its phone's user in as long as it lives |
| IdentityOutcomes.LoginOpensSession | apps/api/src/auth/auth.service.ts:103-144 | a login opens one session of the phone's user, which its refresh token holds for the configured time, and writes nothing but the time of the login to the user |
| IdentityOutcomes.RetryAfterIsEnough | apps/api/src/auth/auth.service.ts:34-68 | asking for a code again is refused iff no more than the pace's milliseconds have passed, and once more than the seconds told have passed it is accepted |
| IdentityOutcomes.ToldSecondsAreNotEnough | apps/api/src/auth/auth.service.ts:34-68 | with one code a minute, asking again after exactly the sixty seconds told is refused |
| AccountLifecycle.AnonymizeErases | apps/api/src/users/users.service.ts:32-48 | anonymisation leaves no phone, no live session and no code of that phone |
| AccountLifecycle.ErasedIsTerminal | apps/api/src/users/users.service.ts:32-48 | in every continuation an anonymised account has no phone and no live session, and no login or refresh grants access to it |
| ContactIds.RefusedIff | apps/api/src/amocrm/amocrm-sync.service.ts:36-40 | the upsert of a contact is refused iff an account other than the one with the contact's phone holds the contact id |
| ContactIds.HolderBlocksIffPhoneless | apps/api/src/amocrm/amocrm-sync.service.ts:36-40 | the holder of a contact id blocks it for every phone iff it has no phone |
| ContactIds.AnonymisedContactStaysBlocked | apps/api/src/users/users.service.ts:39-46 | anonymisation keeps the contact id, so in every continuation the upsert of that contact is refused, whatever phone it has |
| ContactIds.ChangedPhoneIsRefused | apps/api/src/amocrm/amocrm-sync.service.ts:36-40 | a contact whose phone changed in the CRM is refused while its account keeps the old phone |
| ContactIds.BothRefusalsReached | apps/api/src/amocrm/amocrm-sync.service.ts:36-40 | both refusals are reached from the empty service |
| ContactIds.RunKeepsUniqueContacts | apps/api/prisma/schema.prisma:17-54 | every run keeps contact ids unique |
| SessionChains.AtMostOneLivePerChain | apps/api/src/auth/auth.service.ts:146-189 | in every run two sessions of one login are never both live |
| SessionChains.RunConservesLiveCount | apps/api/src/auth/auth.service.ts:114-196 | in every run a user's live sessions number the user's logins minus the ended chains |
| SessionChains.LiveEqualsLoginsMinusEnded | apps/api/src/auth/auth.service.ts:114-196 | the same equation for every sound ledger |
| SessionChains.RefreshSwapsOneSession | apps/api/src/auth/auth.service.ts:172-186 | an accepted refresh ends the presented session, starts its successor in the same chain and changes no other session |
| SessionChains.RefreshConservesLiveCount | apps/api/src/auth/auth.service.ts:172-186 | an accepted refresh conserves every user's number of live sessions |
| SessionChains.RecordGrows | apps/api/src/auth/auth.service.ts:114-196 | a step appends at most one session, which starts a chain or continues one it has just ended |
| SessionChains.RunKeepsSound | apps/api/src/auth/auth.service.ts:114-196 | only the newest session of a chain can be live, over every run |
| OtpLimits.WrongGuessesBounded | apps/api/src/auth/auth.service.ts:31-101 | in a window of T ms without anonymising the holder at most maxAttempts * ceil((T + ttl) / W) wrong codes are compared for a phone, W = 60000 / rate |
| OtpLimits.ReachableIsPaced | apps/api/src/auth/auth.service.ts:31-56 | in every reachable store codes of one phone lie more than W apart and attempts never pass the maximum |
| OtpLimits.RunCountsAttempts | apps/api/src/auth/auth.service.ts:93-101 | the wrong guesses of a run are exactly the attempts added to codes that could be alive |
| OtpLimits.SpacingBoundsCount | apps/api/src/auth/auth.service.ts:34-40 | how many codes fit in a stretch of time when they are more than a gap apart |
| OtpLimits.NewestLiveIsLatest | apps/api/src/auth/auth.service.ts:82-85 | the row that the lookup picks is the latest of the phone's live codes |
| OtpLimits.LoginUncoversOlderCode | apps/api/src/auth/auth.service.ts:82-106 | after a login the next newest live code, if there is one, becomes the one compared |
| OlderCodes.OlderCodeAcceptedIff | apps/api/src/auth/auth.service.ts:31-106 | from a registered phone without codes some run accepts an older code after a newer one was requested iff codes live longer than the pace of requests and a millisecond |
| OlderCodes.FirstCodeStillLogsIn | apps/api/src/auth/auth.service.ts:31-106 | with such settings two requests in a row and a login with the second code leave the first code valid for another login |
| OlderCodes.ShortLivedCodesAreNewest | apps/api/src/auth/auth.service.ts:31-106 | with other settings no login consumes a code after a newer one was requested |
| OtpLimits.LoginsNeverExceedRequests | apps/api/src/auth/auth.service.ts:46-106 | successful logins plus unused codes never outnumber requested plus earlier unused codes |
| Phone.NormalizeIdempotent | apps/api/src/common/phone.ts:10-22 | normalising twice is normalising once, and so is the stored form |
| Phone.FixedPointIffCanonical | apps/api/src/common/phone.ts:10-22 | a number normalises to itself exactly when it is +7 and ten digits |
| Phone.SeparatorsDoNotMatter | apps/api/src/common/phone.ts:12-13 | inserting any character but a digit does not change the normal form as long as the leading plus stays what it was |
| Phone.PlusKeptIff | apps/api/src/common/phone.ts:13 | the leading plus stays what it was iff the character is white space, stands behind a visible one, or is a plus in front of the plus or no plus in front of none |
| Phone.SpellingsAgree | apps/api/src/common/phone.ts:15-20 | ten digits, trunk 7 or 8 with ten digits, and +7 with ten digits have one normal form |
| Phone.AcceptedIff | apps/api/src/common/phone.ts:10-22 | a text is taken for a Russian number iff it has a plus in front and eleven digits starting with 7, or no plus and ten digits or eleven starting with 7 or 8 |
| Phone.NormalIsLastTen | apps/api/src/common/phone.ts:15-20 | the normal form is +7 and the last ten digits |
| CrmLens.PushThenPull | apps/api/src/amocrm/amocrm-mapper.ts:29-98 | push then pull returns the comment verbatim, the progress clamped and rounded, the stage when the status is unmapped, and the rest of the patch unchanged; a lead with an invalid stage field becomes readable again when a stage is pushed, with all its other parts |
| CrmLens.StageRoundTripIff | apps/api/src/amocrm/amocrm-mapper.ts:37-46 | the stage makes the round trip iff the status is unmapped or maps to that very stage |
| CrmLens.MappedStatusWins | apps/api/src/amocrm/amocrm-mapper.ts:37-46 | a lead whose status stands for detailing gives detailing back after production was pushed |
| CrmLens.PullThenPush | apps/api/src/amocrm/amocrm-mapper.ts:29-98 | pushing what was pulled changes nothing that can be pulled |
| CrmLens.PushTwice | apps/api/src/amocrm/amocrm-mock.client.ts:35-43 | every field reads the same after two pushes as after one push of the overriding values, even when the lead lists a field twice |
| CrmLens.ClampNearest | apps/api/src/amocrm/amocrm-mapper.ts:54-57 | a percentage is the nearest whole one, half-way values going up, within 0 and 100 |
| CrmLens.ReadMerged | apps/api/src/amocrm/amocrm-mock.client.ts:38-40 | after a merge by field id a field reads as its last pushed value, else as before |
| CrmLens.LeadToOrderPatch | apps/api/src/amocrm/amocrm-mapper.ts:29-81 | the method that fills the patch computes the specified pull, error included |
| CrmLens.OrderToCustomFields | apps/api/src/amocrm/amocrm-mapper.ts:83-98 | the method pushes exactly the defined inputs in order |
| CrmLens.MockClient.PatchLead | apps/api/src/amocrm/amocrm-mock.client.ts:35-43 | the in-place merge by loops is the specified push on that lead and leaves other leads alone |
| InsertionMap.GetPutAll | apps/api/src/amocrm/amocrm-mock.client.ts:38-39 | reading a Map filled from a list gives the last entry of that key |
| OrderMirror.EntriesSurviveSync | apps/api/src/amocrm/amocrm-sync.service.ts:44-60 | after any run from an empty backend that is orderly for one deal, whatever is done to other deals, a sync of the deal with no pending job changes its order's stage, progress or comment only if the CRM wrote it since it was entered or synced |
| OrderMirror.NoEditNoMark | apps/api/src/amocrm/amocrm-sync.service.ts:44-60 | in a run without CRM edits the CRM has written nothing, so a sync changes nothing entered |
| OrderMirror.SyncAgrees | apps/api/src/amocrm/amocrm-sync.service.ts:44-60 | after a successful sync with no pending job the order agrees with its lead in stage, progress and comment |
| OrderSync.SyncWritesLead | apps/api/src/amocrm/amocrm-sync.service.ts:25-74 | a sync that succeeds leaves the deal one order with name, stage, progress, comment, prepayment and services as the lead's own fields say; a new one belongs to the account that has the phone and the id of the lead's contact, an old one keeps client, contract and place, and no other order changes |
| OrderSync.SyncFailsIff | apps/api/src/amocrm/amocrm-sync.service.ts:25-42 | in every consistent store a sync fails with each error iff the lead is missing, its stage is none, it names no contact, the contact is missing, has no phone, or another account holds its id, in this order, and then changes nothing |
| OrderSync.ClientNeverChanges | apps/api/src/amocrm/amocrm-sync.service.ts:56-74 | over every run no order changes its client or its deal, and each belongs to an account |
| OrderSync.BadServicesEraseIff | apps/api/src/amocrm/amocrm-mapper.ts:68-75 | where the lead's services are missing or no JSON the sync writes none over those of the order; they survive iff there were none |
| OrderMirror.RunKeepsMirrored | apps/api/src/amocrm/amocrm-sync.service.ts:25-73 | every run that is orderly for a deal keeps its order, in all the CRM has not written itself, equal to what its lead will give once the pending jobs are processed |
| OrderMirror.DroppedJobAgreesIff | apps/api/src/orders/orders.service.ts:63-73 | when two updates of an order fall into one millisecond the second job is dropped, and the mirror agrees iff that update changed nothing |
| OrderMirror.SecondEntryDropped | apps/api/src/orders/orders.service.ts:63-73 | two comments entered in one millisecond: the worker pushes the first, and the next sync puts it in the place of the second |
| OrderMirror.EarlySyncReverts | apps/api/src/amocrm/amocrm-sync.service.ts:56-60 | a successful sync that overtakes the job of an entry brings progress and comment back, and the stage if the lead has one; the entry survives iff it repeats the old values, a stage the lead lacks excepted |
| OrderMirror.LateSyncHeals | apps/api/src/amocrm/jobs/amocrm-outbound.processor.ts:29-39 | after any steps that neither update the order nor edit its lead in the CRM, early syncs of it included, as soon as no job of the deal is left the next successful sync takes over the last entered comment and progress, and the stage if the lead's status is unmapped |
| OrderMirror.DrainedReads | apps/api/src/amocrm/jobs/amocrm-outbound.processor.ts:29-39 | a lead after the pending jobs of its deal reads, field by field, as the last of them wrote it, or as before |
| OrderMirror.EntryLostAndFound | apps/api/src/amocrm/amocrm-sync.service.ts:56-60 | a run in which every sync succeeds, a comment is overtaken and lost, and is back after the worker |
| OrderMirror.OrderService.UpdateProgress | apps/api/src/orders/orders.service.ts:26-89 | the method updates the order, appends the history row, queues the job and classifies the change as specified |
| OrderMirror.OrderService.HandleProgress | apps/api/src/notifications/listeners/order-progress.listener.ts:21-51 | the listener requests at most one notification, of the specified kind |
| OrderMirror.OrderService.AddJob | apps/api/src/orders/orders.service.ts:63-73 | a job whose id was seen before is ignored |
| OrderMirror.OrderService.Process | apps/api/src/amocrm/jobs/amocrm-outbound.processor.ts:29-41 | the worker pushes the oldest job's fields to the lead as specified |
| OrderMirror.OrderService.SyncDealById | apps/api/src/amocrm/amocrm-sync.service.ts:25-83 | the method is the specified sync, with its error order |
| OrderHistory.HistoryExplainsOrder | apps/api/src/orders/orders.service.ts:26-89 | replaying an order's history rows gives its stage and progress, the version grew by their number, the last stage request names the stage, and two ready requests have a departure between them |
| OrderHistory.VersionCountsRowsAndSyncs | apps/api/src/amocrm/amocrm-sync.service.ts:56-60 | in every run the version counts history rows plus successful syncs of the order |
| OrderHistory.RequestsStayExplained | apps/api/src/notifications/listeners/order-progress.listener.ts:21-51 | one classified update keeps the account of the requests |
| OrderHistory.ListenerAsksIff | apps/api/src/notifications/listeners/order-progress.listener.ts:21-51 | after an update the listener asks for a ready notification iff the order has become ready, for a stage notification iff it has moved to another stage, for a progress notification iff the stage is the same and the progress differs by ten points or more, and otherwise for none |
| StageNotices.StepTellsIff | apps/api/src/notifications/notifications.service.ts:18-38 | after any step, a sync included, the customer will have been told the current stage last, by due instants, iff the step did not move the order and that was so before, or it moved it and either a notice was enqueued that does not tell of readiness while another one of the order waits for the morning, or what was told last is the stage come back to |
| StageNotices.ToldIffLastMoveTold | apps/api/src/notifications/notifications.service.ts:18-38 | over every run of updates, worker steps, syncs and CRM edits the customer will have been told the current stage last iff the last step that moved the order told of it |
| StageNotices.SecondChangeNotTold | apps/api/src/notifications/listeners/order-progress.listener.ts:21-38 | two changes of stage less than a minute apart: the customer is told the first only |
| StageNotices.ReadinessOvertakes | apps/api/src/notifications/notifications.service.ts:29-37 | at night a change of stage waits for the morning and readiness entered after it is told at once: what the customer is told last is the stage before |
| StageNotices.SyncIsSilent | apps/api/src/amocrm/amocrm-sync.service.ts:56-60 | a manager moves the lead, the sync moves the order, and the customer is told nothing |
| StageNotices.OneMorning | apps/api/src/notifications/notifications.quiet-hours.ts:14-25 | what is deferred at different moments of one night falls due at one instant |
| Failsafe.EditsAreFollowed | apps/api/src/amocrm/amocrm-failsafe.service.ts:13-37 | when a run has ended, every edit since the cold-start cutoff made before that run took its list has been followed by a sync attempt of the lead, however edits interleave and despite whole seconds |
| Failsafe.RunKeepsCovered | apps/api/src/amocrm/amocrm-failsafe.service.ts:23-35 | every run keeps the coverage invariant |
| Failsafe.FailedListLosesIff | apps/api/src/amocrm/amocrm-failsafe.service.ts:23-26 | after a failing list call a lead that nobody edits meanwhile is in the next list iff it was edited in the second of the failing call or later; any other lead is never attempted again |
| Failsafe.FailedSyncRetriedIff | apps/api/src/amocrm/amocrm-failsafe.service.ts:27-34 | in every reachable world, after a failing sync a lead that nobody edits meanwhile is in the next list iff it was edited in the second its run started or later; any other lead is never tried again |
| Failsafe.FailedSyncLosesEdit | apps/api/src/amocrm/amocrm-failsafe.service.ts:27-34 | from every cold start an edit, two seconds and a run that fails to sync the lead lead to an edit that is never synced |
| Failsafe.RunKeepsReady | apps/api/src/amocrm/amocrm-mock.client.ts:45-50 | in every run the CRM has one row for a lead and no list names a lead twice |
| FailsafeMirror.RestAgreesIff | apps/api/src/amocrm/amocrm-failsafe.service.ts:20-38 | in every run of managers, administrators, worker, webhooks and poller in which list calls succeed: once the poller is idle, each edit of the lead came before its last list, each failed sync of it was followed by one that succeeded and no job is left that writes into it, its order agrees with it in an aspect iff the aspect is what the deal's last sync wrote, a stage that the lead lacks excepted |
| FailsafeMirror.EditedLeadsAgree | apps/api/src/amocrm/amocrm-failsafe.service.ts:20-38 | in every such run, early syncs and stages against the pipeline status included, the order agrees with its lead in stage, progress and comment, provided each update of that order has a job id of its own or repeats what is there |
| FailsafeMirror.DroppedEntryStays | apps/api/src/orders/orders.service.ts:63-73 | an update that enters nothing takes the job id of a comment entered in the same millisecond: the comment never reaches the lead and the poller has nothing to notice |
| FailsafeMirror.RunKeepsTraced | apps/api/src/amocrm/amocrm-failsafe.service.ts:20-38 | every run whatever keeps the lead of each deal reading as at its last successful sync, unless a job will still write into it or an edit of it is in the log that no successful sync of the poller has followed |
| Failsafe.NextListHasIff | apps/api/src/amocrm/amocrm-mock.client.ts:45-50 | the next list holds a lead that is not edited meanwhile iff its second is not before that of lastSync |
| Failsafe.OutsideIsNeverAttempted | apps/api/src/amocrm/amocrm-failsafe.service.ts:13-37 | a lead outside the window is never attempted in any run in which nobody edits it |
| Failsafe.FailedListLosesEdit | apps/api/src/amocrm/amocrm-failsafe.service.ts:23-26 | from every cold start an edit, two seconds and a failing list call lead to an edit that is never followed |
| Failsafe.FailsafeService.Run | apps/api/src/amocrm/amocrm-failsafe.service.ts:23-38 | the method attempts every listed lead once, whatever happens before each attempt, and counts the successes |
| Failsafe.FailsafeService.SyncOne | apps/api/src/amocrm/amocrm-failsafe.service.ts:29-34 | a failing sync does not stop the loop |
| TtlStore.AttemptReflects | apps/api/src/notifications/notifications.dedup.service.ts:14-18 | an attempt is accepted iff the key was not granted within the time to live, and the store goes on reflecting the grants |
| TtlStore.HeldIffGranted | apps/api/src/amocrm/amocrm-idempotency.service.ts:18-22 | a key is held iff it was granted within the time to live |
| TtlStore.Redis.SetNx | apps/api/src/amocrm/amocrm-idempotency.service.ts:20 | SET NX EX on the field is the specified set-if-absent |
| QuietHours.ComputeDelay | apps/api/src/notifications/notifications.quiet-hours.ts:14-25 | the adjusted Date gives the specified delay, which lands on 06:00:00.000 UTC within 24 h |
| QuietHours.LandsOnMorning | apps/api/src/notifications/notifications.quiet-hours.ts:14-25 | for every instant the delay is in (0, 24 h] and lands on 06:00:00.000 UTC |
| QuietHours.LeastDelayOutOfQuiet | apps/api/src/notifications/notifications.quiet-hours.ts:9-25 | from a quiet instant the delay is the least positive one to a non-quiet instant and at most 11 h |
| QuietHours.QuietByTimeOfDay | apps/api/src/notifications/notifications.quiet-hours.ts:5-12 | quiet is exactly 19:00 to 06:00 UTC |
| Notifications.JobsSpacedAndWellScheduled | apps/api/src/notifications/notifications.service.ts:18-38 | in every run jobs of one key are at least 60 s apart, non-critical jobs fall due outside quiet hours and critical ones at once |
| Notifications.SkippedIffRecent | apps/api/src/notifications/notifications.service.ts:23-27 | a send is skipped iff a job of its key was enqueued less than 60 s earlier |
| Notifications.JobIdsDistinct | apps/api/src/notifications/notifications.service.ts:33-37 | in every run all job id strings are distinct |
| Notifications.IdStringInjective | apps/api/src/notifications/notifications.service.ts:36 | job id strings are equal iff user, event, order and instant are, given ids without underscore |
| Notifications.KeyStringInjective | apps/api/src/notifications/notifications.dedup.service.ts:15 | de-duplication keys are equal iff user, event and order are |
| Notifications.NotificationService.ShouldSend | apps/api/src/notifications/notifications.dedup.service.ts:14-18 | the method is the 60 s set-if-absent |
| Notifications.NotificationService.Send | apps/api/src/notifications/notifications.service.ts:18-38 | the method is the specified step: skip, or enqueue with the delay |
| Webhook.DeliveryCovered | apps/api/src/amocrm/amocrm-webhook.controller.ts:48-75 | every id of a delivery is enqueued by it or was less than 600 s before, nothing else is enqueued, and accepted counts what was |
| Webhook.NoRepeatWithinWindow | apps/api/src/amocrm/amocrm-webhook.controller.ts:59-72 | over every run no id is enqueued twice within 600 s |
| Webhook.AcceptedDependsOnIdSet | apps/api/src/amocrm/amocrm-webhook.controller.ts:53-57 | accepted is the number of the delivery's distinct ids outside the window, so it depends on the set of ids only |
| Webhook.IdSetOfSections | apps/api/src/amocrm/amocrm-webhook.controller.ts:21-32 | an id is in the set iff some section holds it, as array or index object, in any order and number |
| Webhook.ExtractIds | apps/api/src/amocrm/amocrm-webhook.controller.ts:21-32 | the loop returns the positive integer ids of the section in order |
| Webhook.WebhookController.MarkIfNew | apps/api/src/amocrm/amocrm-idempotency.service.ts:18-22 | the method is the 600 s set-if-absent |
| Webhook.WebhookController.Receive | apps/api/src/amocrm/amocrm-webhook.controller.ts:48-75 | the method is the specified delivery step |
| ChatServer.SnapshotsMatchLinks | apps/api/src/chat/chat.service.ts:120-172 | over every run each message's snapshot is exactly the attachment rows linked to it, a linked row has the message's chat and sender, and links and messages are final but for read marks |
| ChatServer.AcceptedIffUsable | apps/api/src/chat/chat.service.ts:140-154 | a message with attachments is accepted iff the ids are distinct and each names an unlinked upload of the sender in this chat |
| ChatServer.MarkReadLeavesNewer | apps/api/src/chat/chat.service.ts:199-219 | marking lowers the unread count by the number reported, leaves only newer messages unread, and marking again reports none |
| ChatServer.RunKeepsConsistent | apps/api/src/chat/chat.service.ts:137-172 | every run keeps links and snapshots in agreement |
| ChatServer.LinkingMatches | apps/api/src/chat/chat.service.ts:146-172 | the rows linked to a new message are those whose snapshots were taken |
| ChatAccess.RefusedIffStranger | apps/api/src/chat/chat.service.ts:103-118 | in every store listing, uploading, sending and marking answer ChatNotFound iff there is no such chat or a client asks who is not the client of the chat's order, and then change nothing |
| ChatAccess.OnlyMembersWrite | apps/api/src/chat/chat.service.ts:103-172 | over every run from the start each message and each upload of a chat comes from an administrator or from the client of the chat's order, and an order has one chat at most |
| ChatAccess.ChatOfOrder | apps/api/src/chat/chat.service.ts:61-84 | asking for an order's chat is refused iff the order does not exist or is another client's; the answer is the one chat of the order and the number of messages that others sent and nobody marked |
| ChatAccess.SentIsReadFirst | apps/api/src/chat/chat.service.ts:86-172 | a message that is taken is the first one that every member then reads, unread, with its text, sender and time |
| ChatAccess.MarksExactly | apps/api/src/chat/chat.service.ts:199-219 | marking touches exactly the unread messages of others in the chat that are no newer than the one named |
| ChatServer.ChatService.FindOrCreateForOrder | apps/api/src/chat/chat.service.ts:61-84 | the method is the specified step: one chat per order, access and unread count |
| ChatServer.ChatService.List | apps/api/src/chat/chat.service.ts:86-101 | the method is the specified page query |
| ChatServer.ChatService.CreateAttachment | apps/api/src/chat/chat.service.ts:120-135 | the method is the specified step, with the size limit |
| ChatServer.ChatService.SendMessage | apps/api/src/chat/chat.service.ts:137-172 | the method is the specified step, with its error order |
| ChatServer.ChatService.MarkRead | apps/api/src/chat/chat.service.ts:199-219 | the method is the specified step |
| ChatRefinement.ListMessagesServesTheView | apps/api/src/chat/chat.service.ts:86-101 | listMessages with page size 50 answers exactly as the server the view was verified against |
| ChatRefinement.ChatViewOrdered | apps/api/src/chat/chat.service.ts:96-100 | a chat whose times ascend is a well-ordered chat for the view |
| ChatRefinement.SendArrives | apps/api/src/chat/chat.service.ts:157-165 | a message sent after the clock has moved is an arrival at the end of its chat and changes no other chat's view |
| ChatRuns.ShownListIsStored | apps/admin/src/components/chat/Conversation.tsx:33-84 | for every run of the service from its start, interleaved with a view's requests, answers and failures, with a clock that moves between messages the list shown is strictly ascending, free of repetition and part of what the server stores |
| ChatRuns.ViewStepRefines | apps/admin/src/components/chat/Conversation.tsx:24-28 | each request of the view, answered by listMessages or refused, is a step of the view's own model |
| ChatRuns.ServerStepRefines | apps/api/src/chat/chat.service.ts:61-219 | each operation of the service is an arrival in the view's chat or invisible to it |
| Conversation.WholeChatAfterLoads | apps/admin/src/components/chat/Conversation.tsx:67-97 | a static chat of n messages is whole, ascending and without repetition after exactly floor(n / 50) presses; until then and only until then the button is offered |
| Conversation.LoadsRevealPages | apps/admin/src/components/chat/Conversation.tsx:67-84 | after k presses the newest 50 (k + 1) messages are shown |
| Conversation.ListingStaysOrdered | apps/admin/src/components/chat/Conversation.tsx:33-84 | while messages arrive, and fetches and loads are sent, answered, landed or failed at any moments, the merged list stays strictly ascending, free of repetition and part of the chat |
| Conversation.RunKeepsTidy | apps/admin/src/components/chat/Conversation.tsx:33-84 | every interleaving keeps the invariant behind it |
| Conversation.ConversationView.Messages | apps/admin/src/components/chat/Conversation.tsx:33-38 | the Maps filled by loops give the specified merge |
| Conversation.ConversationView.OnPress | apps/admin/src/components/chat/Conversation.tsx:67-72 | a press asks for what lies before the first message shown |
| Conversation.ConversationView.OnLand | apps/admin/src/components/chat/Conversation.tsx:73-80 | the page that landed is merged in front, and a short page ends the paging |
| Conversation.ConversationView.OnLoadFailed | apps/admin/src/components/chat/Conversation.tsx:82-84 | a load that rejects is the model's failing step: the button is offered again and nothing else changes |
| Conversation.ConversationView.OnFetched | apps/admin/src/components/chat/Conversation.tsx:24-30 | the answer of a fetch that lands is the model's landing step |
| Conversation.ConversationView.OnAnswer | apps/admin/src/components/chat/Conversation.tsx:73 | the server's rows for the cursor are the model's answer |
| ConversationGaps.ShownIsContiguousIff | apps/admin/src/components/chat/Conversation.tsx:33-84 | in every run the list has no gap iff no older page has been loaded, or no message arrived between the answer that gave the first cursor and the last answer of a fetch that landed |
| ConversationGaps.GapOfRun | apps/admin/src/components/chat/Conversation.tsx:33-84 | once a message has fallen out behind a loaded page, what is older than it is shown and it is not, now and in every continuation |
| ConversationGaps.ArrivalDropsAMessage | apps/admin/src/components/chat/Conversation.tsx:33-84 | in every chat of more than fifty messages one older page loaded and one message arriving drop a message for good |
| ConversationGaps.EqualTimesHideTheRest | apps/api/src/chat/chat.service.ts:93 | in a chat of equal creation times the first press finds nothing, and all but the newest page stays hidden |
| Paging.BeforeRow | apps/api/src/chat/chat.service.ts:93 | the rows before the k-th row of an ascending chat are its first k |
| Paging.PageOfMap | apps/api/src/chat/chat.service.ts:96-100 | a page query commutes with any view of the rows that keeps their times |
| Template.PlaceholderReplaced | apps/api/src/notifications/notifications.vars.ts:13-15 | a placeholder is replaced by its value verbatim, whatever it contains, and the text before and after it is substituted as if it stood alone |
| Template.SubstituteRendersTheParse | apps/api/src/notifications/notifications.vars.ts:13-15 | replacement match by match is one rendering of one left-to-right parse |
| Template.UnparseParse | apps/api/src/notifications/notifications.vars.ts:14 | the parse loses nothing: unparsing it gives the text |
| Template.HolesAreOccurrences | apps/api/src/notifications/notifications.vars.ts:14 | the placeholders of the parse are exactly the places where the pattern occurs |
| Template.OccurrencesDisjoint | apps/api/src/notifications/notifications.vars.ts:14 | occurrences of the pattern never overlap |
| Template.IdentityVars | apps/api/src/notifications/notifications.vars.ts:13-15 | mapping every key to its own placeholder returns the text |
| Template.NoPlaceholderNoChange | apps/api/src/notifications/notifications.vars.ts:13-15 | a text without the pattern is returned as it is |
| Template.ResultNotRescanned | apps/api/src/notifications/notifications.vars.ts:13-15 | the result may itself contain a placeholder: substitution is one pass and not idempotent |
| MarkdownConverter.MdToHtml | scripts/build-pdf.cjs:28-102 | for every document and every choice of line patterns the loop ends and its page is the rendering of the parse |
| MarkdownConverter.ConvertLines | scripts/build-pdf.cjs:37-100 | the loop with fence flag, code buffer and list stack writes exactly the pieces of the parse |
| MarkdownConverter.ConvertLine | scripts/build-pdf.cjs:48-98 | the tests of one line in their order advance the page by the block that starts there |
| MarkdownConverter.CloseLists | scripts/build-pdf.cjs:35 | the inner loop closes the open lists, innermost first |
| MarkdownConverter.WriteRows | scripts/build-pdf.cjs:54-57 | the row loop appends each row of the table in order |
| Markdown.PageNested | scripts/build-pdf.cjs:35-100 | list tags are balanced, every item stands in exactly one open list of its kind, and nothing else stands inside a list |
| Markdown.RenderKeepsOrder | scripts/build-pdf.cjs:79-90 | without its list tags the page is the blocks one by one in document order |
| Markdown.OneListPerRun | scripts/build-pdf.cjs:82-88 | the page has exactly one list for each maximal run of items of one kind |
| Markdown.EveryLineInOneBlock | scripts/build-pdf.cjs:37-99 | the blocks of a document cover every line exactly once |
| Markdown.BlankLineSplits | scripts/build-pdf.cjs:38-46 | an empty line splits the document into two that are parsed as if each stood alone, iff an even number of fences stands before it |
| Markdown.StopSplits | scripts/build-pdf.cjs:49-77 | a line that belongs to no table or quote ends every block before it but an open fence |
| Markdown.ClosedIffEven | scripts/build-pdf.cjs:41-46 | every fence is closed iff the document has an even number of fences |
| Markdown.OpenFenceParse | scripts/build-pdf.cjs:41-46 | with an odd number everything from the last fence on is one open block |
| Markdown.OpenFenceDropsTail | scripts/build-pdf.cjs:41-46 | with an odd number of fences the page is the page of the lines before the last fence: the lines from it on are lost |
| Markdown.OpenFenceShowsNothing | scripts/build-pdf.cjs:41-46 | a document of one fence and a line of text has an empty page |
| Markdown.MarkdownFencesStop | scripts/build-pdf.cjs:41-46 | a fence of the source's patterns is no table row, no table rule and no quote |
| Markdown.MarkdownBlank | scripts/build-pdf.cjs:92-93 | an empty line is blank and nothing else under the source's patterns |
| MarkdownText.PageReads | scripts/build-pdf.cjs:28-102 | a browser reads the page as the blocks in order, each one its element (p, h1 to h6 by the number of hashes, li, blockquote, table cells th and td, pre and code) around its whole text, and lists opened and closed around their items |
| MarkdownText.InlineReads | scripts/build-pdf.cjs:20-26 | a text of plain stretches, code, bold and links is read stretch by stretch: plain text whole, code and bold as an element around the whole text between the markers, a link as its text without its target |
| PlainDocument.PlainDocumentReads | scripts/build-pdf.cjs:28-102 | for every document whose lines, fences excepted, hold no backtick, asterisk or opening bracket, what is shown is the text of the blocks in order, character for character |
| PlainDocument.RowReads | scripts/build-pdf.cjs:51 | a table row with a bar at each end and any space around it is split into its cells |
| PlainDocument.LineIsBlock | scripts/build-pdf.cjs:63-98 | the line patterns exclude one another, so what a line is does not depend on the order of the tests |
| MarkdownPage.PageClean | scripts/build-pdf.cjs:17-26 | whatever the document, no < or > of its page comes from the document |
| MarkdownPage.CodeShownVerbatim | scripts/build-pdf.cjs:43 | a browser shows a code block as its lines were written |
| MarkdownPage.LineEndsDoNotMatter | scripts/build-pdf.cjs:29 | CRLF and LF documents give the same page |
| MarkdownPage.SplitJoins | scripts/build-pdf.cjs:29 | splitting into lines loses nothing and no line contains a line feed |
| HtmlText.EscIsOnePass | scripts/build-pdf.cjs:17-19 | three replacements in that order are one pass over the characters: no entity is escaped twice |
| HtmlText.EscapedTextIsRead | scripts/build-pdf.cjs:17-19 | reading escaped text gives the text back |
| HtmlText.InlineKeeps | scripts/build-pdf.cjs:20-26 | inline markup never invents, repeats or reorders text, whatever its characters are written as |
| HtmlText.InlineShowsText | scripts/build-pdf.cjs:17-26 | what the page shows of a text is its characters in order, escaped ones included, some markers and link targets left out, and no entity is cut |
| HtmlText.EscKeepsAll | scripts/build-pdf.cjs:17-19 | escaping keeps every character of the text |
| LinePatterns.RowIsPattern | scripts/build-pdf.cjs:49 | the scan for a table row accepts exactly what its regular expression matches |
| LinePatterns.HeadingIsPattern | scripts/build-pdf.cjs:64 | the scan for a heading accepts exactly what its regular expression matches; the level is the number of hashes, the text what follows all the spaces |
| LinePatterns.UlIsPattern | scripts/build-pdf.cjs:80 | the same for a bullet |
| LinePatterns.OlIsPattern | scripts/build-pdf.cjs:86 | the same for a number |
| LinePatterns.RuleIsPattern | scripts/build-pdf.cjs:68 | the same for a rule |
| LinePatterns.TableRuleIsPattern | scripts/build-pdf.cjs:49 | the same for the line under a table's header |
| LinePatterns.TrimIs | scripts/build-pdf.cjs:51 | trimming takes the white space at both ends and nothing else |

## Left out

- RefreshProtocol.RefreshesPresentTheLiveSession: speaks of one tab after boot and one login; a second tab and the boot effect are the subject of BootRefresh, and a logout or an anonymisation of the account meanwhile end the chain on purpose.
- BootRefresh.AcceptedIffNoOverlap: takes the refresh of a boot effect and any refresh of another tab as the same step, and leaves the rest of the boot sequence with `getMe` out; within one tab the routes show a loader until the boot is over, so an overlap takes two tabs or a development build in strict mode.
- RefreshProtocol.LostRefreshEndsTheSession: does not distinguish a request lost before the server from a response lost after it; both count as failure in the client.
- IosRefresh.RefreshesPresentTheLiveSession: treats each stretch between two awaits of the actor as atomic, and leaves request building and decoding out.
- OtpLimits.WrongGuessesBounded: holds for calls that do not overlap, since `requestCode` and `verifyCode` read first and write later; the rate cutoff keeps whole milliseconds as a Date does after the epoch, and numbers are exact instead of floating point.
- Identity.IdentityService.VerifyCode: takes bcrypt as an abstract hash with compare(t, hash(t)), and token signing as an abstract signer; session ids are row positions where the source draws random UUIDs.
- Identity.RunKeepsConsistent: does not model deletion of rows by hand or by migration, such as the phone-merge migration.
- OrderMirror.EntriesSurviveSync: lets the CRM write anything into a lead at any time, and assumes for the one deal a run without two updates of its order in one millisecond, without a stage that contradicts a mapped pipeline status, and without a sync while a job of it is pending; DroppedJobAgreesIff, StageRoundTripIff and EarlySyncReverts say what happens otherwise.
- OrderHistory.HistoryExplainsOrder: excludes syncs of the order's deal, which write the order without a history row or an event; VersionCountsRowsAndSyncs covers them for the version, StageNotices.SyncIsSilent shows what they leave unsaid.
- FailsafeMirror.EditedLeadsAgree: assumes that each update of the deal's order has a job id of its own or repeats what is there (RestAgreesIff says what happens otherwise), that list calls succeed, and that a failed sync of the lead is followed by one that succeeds (Failsafe.FailedListLosesIff and FailedSyncRetriedIff say when that fails).
- StageNotices.ToldIffLastMoveTold: takes a job's due instant to be the instant of the send plus the delay, and delivery to follow the due instants, jobs due at one instant in the order of enqueuing; push failures and the parallel work of several workers are not modelled.
- OrderMirror.OrderService.Process: the worker takes jobs in order and once; retries and back-off of the queue are not modelled.
- Failsafe.EditsAreFollowed: counts attempts, not successes (FailedSyncRetriedIff says what a failing one costs), assumes list calls that succeed (FailedListLosesIff says what a failing one costs), and holds for the mock client; the real client's limit of 250 leads is not modelled.
- Conversation.WholeChatAfterLoads: needs distinct creation times and a chat without arrivals; ConversationGaps says when messages arriving between fetches, or equal times, leave a gap.
- ChatServer.SnapshotsMatchLinks: holds for calls that do not overlap and for rows that a query returns in table order.
- ChatRuns.ShownListIsStored: needs a clock that moves between two messages of a chat, since the cursor compares times only.
- Notifications.JobIdsDistinct: assumes user and order ids without underscores, as UUIDs are.
- ChatAccess.OnlyMembersWrite: knows administrators by the role they act in; the route guards that keep partners out are not modelled.
- Webhook.DeliveryCovered: takes the hash of an event as injective.
- TtlStore.Redis.SetNx: Redis holds a key for exactly its time to live; restarts and eviction are not modelled.
- MarkdownText.InlineReads: speaks of texts whose marked stretches hold no markers of their own; HtmlText.InlineKeeps covers all others with less.
- MarkdownConverter.MdToHtml: whether the inline tags that bold and code spans write nest properly is not stated, because bold across a code span can cross tags.
- Template.SubstituteRendersTheParse: variables are any lookup, so keys inherited from a prototype are covered; how `buildVars` fills them is left out as single-branch facts.
- CrmLens.PushThenPull: field values are text, finite numbers, non-finite numbers and booleans with an abstract number-to-text conversion; null values count as absent.
- HTTP, SQL, Redis, BullMQ, S3, SMS and push transports, the audit log, and JWT signing are left out: maps, sequences and abstract functions stand in for them.
- Role checks, DTO decoration and exception filters are left out; their bounds appear as preconditions only where a claim needs them.
- Commissions, template management, audit listing, push tokens, MIME sniffing, relative times, `listAdminChats` and the order and user listings are left out: they would only add easy members.
- Assigning a partner to an order from the CRM and the notification preview text are left out; neither interacts with the properties above.
- The mobile screens, React pages, themes, labels and routing are left out.
