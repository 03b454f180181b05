# Verified model of redis-fastapi

A Dafny model of the four stateful parts of the library, and proofs of what they promise:

* **Sessions.** Redis holds a session as one hash with two clocks: the key's own expiry is the
  absolute clock, the expiry of field `d` the idle clock. A reverse index maps a subject to its
  sessions. The store sends single atomic commands; the middleware loads a session, lets the
  application change it, and decides once, at response start, whether to save, rotate, revoke or
  touch it and which cookie to set. Any number of requests do this at the same time, operations
  fail part-way, and other requests delete underneath.
* **The response cache.** A response is held back until its last chunk, stored, and replayed; its
  key encodes the URL; groups of entries are cleared by a glob pattern.
* **The window-counter rate limiter**, on its two server tiers.
* **The rate grammar** (`100/minute`, `10/15seconds`).

## How it is put together

| file | what it holds |
|---|---|
| `Prelude.dfy`, `Texts.dfy` | options, filters; joining, splitting, trimming, UTF-8 |
| `SessionServer.dfy` | Redis as a value: session keys, index, clock, and the commands on them |
| `Lifecycle.dfy` | every interleaving of those commands that the store's structure allows, and what no such run can do |
| `SessionOps.dfy` | the command list of each store operation |
| `Interleavings.dfy` | rotation, revocation, listing and age over every interleaving of commands |
| `Session.dfy`, `SessionStore.dfy`, `Middleware.dfy` | the classes: the tracked mapping, the store over a connection, the middleware; each method is proved to do exactly its command list |
| `History.dfy`, `Timelines.dfy` | the store used sequentially, and with its commands interleaved, against a specification that looks only at the past |
| `Requests.dfy` | concurrent requests, revocations and listings as a transition system over those command lists |
| `Embedding.dfy` | every run of requests is a run of the life cycle |
| `Endings.dfy` | rotation and revocation over every run of requests |
| `Principals.dfy`, `IndexSteps.dfy`, `IndexCoverage.dfy`, `Cookies.dfy` | what holds over every run of requests |
| `Replay.dfy`, `Revalidation.dfy`, `Capture.dfy` | cache entries and hits; what a client learns from a hit; the ASGI capture |
| `CacheKey.dfy`, `EvictionGroup.dfy`, `CacheBackend.dfy` | keys, group patterns, deletion by pattern |
| `WindowCounter.dfy`, `RateLimiter.dfy`, `Rate.dfy` | the limiter and the grammar |

Conventions of the model:

* Session time is whole seconds, limiter time is milliseconds. What is due is gone before the next
  command.
* Commands are those of Redis 8.0 (HSETEX, HGETEX), each one atomic step, so that anything may
  happen between two commands of one operation.
* `principal_of` and `subject_of` are arbitrary functions of the session's data. Records are held
  decoded; a record that does not decode is a choice made at each load.
* A generated identifier is fresh, and nobody but the creating request knows it before its creation
  has set the deadline. A cookie carries an identifier some Set-Cookie named, or text that is
  nobody's identifier.
* revoke_all, revoke_id and list_for_subject run beside the requests, from their reading of the
  index on, one command or answer at a time, and may stop anywhere.
* Clock readings of the application, the reachability of Redis, capability probes, the results of
  a SCAN and generated identifiers are parameters.
* Header bytes are the characters latin-1 gives them.

Some promises hold only in part, and the exact condition is proved:

* The ETag of a miss equals the one of the hit, and echoing it gets a 304, if and only if the
  validator is ASCII, because the miss writes it as UTF-8 and the hit as latin-1
  (`Replay.EchoIsCurrentWhenAscii`; `Replay.AccentedTagNeverMatches` has a tag that never matches).
* The capture is transparent if and only if no extension message arrives while bytes are held back
  or after a held response was sent (`Capture.TransparentUnlessDisturbed`): such a message drops the
  bytes held so far (`Capture.TrailersDropTheBody`), or sends a second start
  (`Capture.TrailersStartAgain`).
* The two rate limiter tiers agree on a counter exactly in the states that
  `WindowCounter.TiersAgreeExactly` lists; every counter a limiter leaves behind is one of them.
* Clearing a group removes a cached response of the group if and only if it is not that of the root
  path with no query, whose key ends with the group (`EvictionGroup.CoversDefaultKeys`;
  `EvictionGroup.RootPageStays` is the page left behind).
* Clearing a group leaves the backend's values in another if and only if neither group's name,
  followed by `}:`, starts with the other's so followed (`EvictionGroup.GroupsApart`); a value in no
  group if and only if its own key does not start with the group in braces and a colon
  (`EvictionGroup.SelectsBuiltKey`); and a cached response of another group if and only if that
  group's name does not start with the first and `}:` (`EvictionGroup.SelectsDefaultKey`).
  `EvictionGroup.BracesMayOverlap`, `EvictionGroup.UngroupedMayBeTaken` and
  `EvictionGroup.BracesReachResponses` are inputs that fail, one for each.
* Emptying a session signs the user out if and only if the response is not a failed one with a
  changed identity on a session that did load (`Middleware.EmptyingSignsOut`;
  `Middleware.FailedResponseKeepsTheSession` is the case of a 401).
* Two scopes of the rate limiter share no counter if and only if neither's front, as written in a
  key, starts with the other's (`RateLimiter.ScopesApart`): scopes without a colon are apart
  (`RateLimiter.PlainScopesAreApart`), but no scope at all is not
  (`RateLimiter.ScopesMayMeet`).

## Model

| member | source | states |
|---|---|---|
| History.LoadableIsAlive | src/redis_fastapi/session_backend.py:587-717 | After any sequence of create, load, save, touch, delete and waiting, a load finds a session if and only if it was created, never deleted, is younger than the absolute limit, and every gap between refreshes is shorter than the idle limit; what it finds is the last record written |
| Timelines.LoadableIsAlive | src/redis_fastapi/session_backend.py:587-717 | The same with any number of operations interleaved command by command: in every state of every run of the life cycle a load finds a session if and only if a write was followed by its deadline, no delete came since, the deadline has not passed, and every gap between the commands that restart the idle clock is shorter than the idle limit; what it finds is the last record written |
| History.NoIdleClock | src/redis_fastapi/session_backend.py:410-431 | With the idle clock disabled only the absolute limit and deletion decide |
| History.UnusedLasts | src/redis_fastapi/session_backend.py:410-431 | In terms of the settings: a session nobody uses is loadable while neither the idle limit nor the absolute one is reached, 0 being none, and, with no absolute limit, for as long as the collection time |
| History.EffectIs | src/redis_fastapi/session_backend.py:1321-1373 | What each operation's commands do to one key's payload and its two expiries |
| Lifecycle.ClocksOf | src/redis_fastapi/session_backend.py:410-431 | Both clocks are positive whatever is disabled, a setting that is not 0 is its clock, and a disabled idle clock is the absolute one |
| Lifecycle.StepInv | src/redis_fastapi/session_backend.py:656-717 | Every command of any request keeps the invariant: a key with a deadline is one whose creation set it, at creation time plus the absolute limit |
| Lifecycle.DeathIsPermanent | src/redis_fastapi/session_backend.py:668-686 | A known identifier that no load finds is found by no later load, whatever saves, touches, refreshing loads, creations and deletions follow in any interleaving |
| Lifecycle.DeletedStaysDead | src/redis_fastapi/session_backend.py:736-748 | Once its delete reached the server a session is never loaded again |
| Lifecycle.DeadlineIsFinal | src/redis_fastapi/session_backend.py:668-686 | No step moves a live key's deadline, and past it the session is never loaded again |
| Lifecycle.LoadDecides | src/redis_fastapi/session_backend.py:617-654 | With anything between the two commands of a load: a session reported is live with that much time left; one not reported is dead from then on, so the tidy-up delete removes nothing that lives |
| Lifecycle.LoadableIsBorn | src/redis_fastapi/session_backend.py:656-666 | A session exists only from the moment its creation set its deadline |
| Interleavings.RotationEndsTheOld | src/redis_fastapi/session_backend.py:811-858 | A rotation that has set the new deadline has ended the old identifier for good and started a full absolute clock |
| Interleavings.RevokeIsFinal | src/redis_fastapi/session_backend.py:871-902 | After the first command of a revocation no load finds the session, whoever still holds it |
| Interleavings.RevokeIdIsFinal | src/redis_fastapi/session_backend.py:904-934 | A revocation by id that sends anything found the id in the subject's index when it read it, and after its first command no load finds the session |
| Interleavings.RevokeAllIsFinal | src/redis_fastapi/session_backend.py:936-959 | revoke_all, stopped after any command, has ended for good the sessions whose deletes were sent, and with the last delete every session that was in the index when it was read, though requests that hold them save, touch or re-index them afterwards |
| Interleavings.ClearingForgetsOnlyTheDead | src/redis_fastapi/session_backend.py:948-957 | If nothing was added to the index since revoke_all read it, its clearing drops only entries of dead sessions |
| Interleavings.ListingIsExactAndPruningSafe | src/redis_fastapi/session_backend.py:1007-1054 | The liveness verdict on a listed member is exact when its deadline is read, and a member judged dead is never loaded afterwards, so pruning loses nothing that lives or ever will |
| Interleavings.AgeIsElapsedTime | src/redis_fastapi/session_backend.py:1451-1461 | The age of a loaded session is the server time since its identifier's creation |
| Interleavings.AgeNeverDecreases | src/redis_fastapi/session_backend.py:750-764 | Between two loads of one identifier the age grows by exactly the time between them, whatever was saved or touched |
| SessionStores.AliveIsLoadable | src/redis_fastapi/session_backend.py:1425-1448 | The batch liveness test says what a load would |
| SessionStores.DelAll | src/redis_fastapi/session_backend.py:1401-1410 | A batch of deletes removes exactly the keys listed |
| SessionStores.PresentCounts | src/redis_fastapi/session_backend.py:1401-1410 | The sum of the delete replies is the number of listed keys there were |
| SessionStores.SortNewest | src/redis_fastapi/session_backend.py:1052 | Sorting by last access gives a permutation, newest first |
| SessionOps.IdsCarryEnough | src/redis_fastapi/session_backend.py:103-111 | A text is taken for an identifier if and only if it is written in the 64 characters of the URL-safe alphabet and is long enough for 128 bits |
| SessionStores.RedisSessionStore.LoadWithStatus | src/redis_fastapi/session_backend.py:587-654 | A session is reported exactly when identifier, connection, payload and deadline allow, with its true remaining time; what is half dead is deleted, if that works; an undecodable record is kept; and a failed read raises or is reported, by policy |
| SessionStores.RedisSessionStore.Create | src/redis_fastapi/session_backend.py:656-666 | Sends the write and then the deadline, and nothing else |
| SessionStores.RedisSessionStore.Save | src/redis_fastapi/session_backend.py:668-717 | Sends the write alone |
| SessionStores.RedisSessionStore.Touch | src/redis_fastapi/session_backend.py:719-734 | Restarts the idle clock alone |
| SessionStores.RedisSessionStore.Delete | src/redis_fastapi/session_backend.py:736-748 | Removes the key |
| SessionStores.RedisSessionStore.Index | src/redis_fastapi/session_backend.py:963-996 | Writes the entry with the remaining time, or none when nothing remains |
| SessionStores.RedisSessionStore.IndexDrop | src/redis_fastapi/session_backend.py:998-1005 | Removes one entry |
| SessionStores.RedisSessionStore.Rotate | src/redis_fastapi/session_backend.py:811-858 | Sends exactly the rotation's commands, old key and entry first, and leaves the request's record naming the new session with a full clock |
| SessionStores.RedisSessionStore.Revoke | src/redis_fastapi/session_backend.py:871-902 | Deletes key and entry, empties the data and marks the request revoked |
| SessionStores.RedisSessionStore.RevokeId | src/redis_fastapi/session_backend.py:904-934 | Ends the session if and only if it is indexed under the subject |
| SessionStores.RedisSessionStore.DeleteMany | src/redis_fastapi/session_backend.py:1401-1410 | Deletes each key listed and counts those that were there |
| SessionStores.RedisSessionStore.RevokeAll | src/redis_fastapi/session_backend.py:936-959 | No indexed session of the subject keeps a key, its index is gone, nothing else changes, the answer counts the keys removed, and the commands are those of the operation |
| SessionStores.RedisSessionStore.Verify | src/redis_fastapi/session_backend.py:1099-1118 | Reading two replies for each candidate from one batch finds exactly those with both clocks running; no answer, rather than an empty one, when there are candidates and the batch failed |
| SessionStores.RedisSessionStore.ListForSubject | src/redis_fastapi/session_backend.py:1007-1054 | With a verification exactly the live entries, newest first, and only those stay indexed but for entries whose removal fails; without one every entry, and none is pruned; an unreadable index is empty or an error, by policy |
| SessionStores.RedisSessionStore.CountForSubject | src/redis_fastapi/session_backend.py:1056-1097 | The entries below the limit, the live ones from it on, and no answer when there are entries and their liveness is unknown |
| Sessions.UnmodifiedMeansUnchanged | src/redis_fastapi/sessions.py:64-231 | After any sequence of operations on the mapping, an unset `modified` means its contents are those loaded, and a set one that it counts as accessed |
| Sessions.StaysValid | src/redis_fastapi/sessions.py:64-231 | Any sequence of operations keeps an ordered mapping without duplicates |
| Sessions.AssignedIsRead | src/redis_fastapi/sessions.py:130-162 | What is assigned is read back, nothing else reads differently, and a known name keeps its place while a new one goes last |
| Sessions.ReadersAgree | src/redis_fastapi/sessions.py:130-156 | Lookup, membership, get with a default, the listing of the names and emptiness agree with one another |
| Sessions.UseIsMarked | src/redis_fastapi/sessions.py:98-231 | Every operation marks the session read but a removal that raises, which changes nothing; those that write mark it changed and those that read change nothing else |
| Sessions.LastInFirstOut | src/redis_fastapi/sessions.py:227-231 | Assigning a new name and popping the latest item gives that item and the mapping as it was |
| Sessions.DefaultSettles | src/redis_fastapi/sessions.py:197-207 | After setdefault, asking again finds the same value and changes nothing; only the call that wrote marks the session changed |
| Sessions.PopTakesOnce | src/redis_fastapi/sessions.py:209-225 | pop answers as a lookup and deletes as a deletion, once; without the name it changes nothing but at most the accessed flag, and when it raises not even that |
| Sessions.MissingDeletionMarks | src/redis_fastapi/sessions.py:164-166 | A deletion marks the session changed even when it raises for a missing name, and then leaves the contents alone |
| Sessions.Session.PerformAll | src/redis_fastapi/sessions.py:64-231 | After any sequence of calls on the object, an unset `modified` means it holds what it held before, and a well-formed mapping stays one |
| Sessions.Session.Merge | src/redis_fastapi/sessions.py:177-195 | A merge is PutAll of its pairs, which MergeAssigns, MergedIsRead and NewNamesFollow describe, and marks the session changed even when there are none |
| Sessions.MergeAssigns | src/redis_fastapi/sessions.py:177-195 | A merge of pairs is their assignments one after the other, and a merge of none marks the session changed |
| Sessions.MergedIsRead | src/redis_fastapi/sessions.py:177-195 | After a merge each name reads as its last pair, or as before when it has none, and names that were there keep their places |
| Sessions.NewNamesFollow | src/redis_fastapi/sessions.py:177-195 | After a merge new names stand behind the old ones, in the order in which they first appear |
| Sessions.ClearedIsEmpty | src/redis_fastapi/sessions.py:187-189 | After a clear nothing is found, listed or popped |
| Middleware.NoLostWrite | src/redis_fastapi/sessions.py:624-712 | If the session was changed, is not empty, was not revoked and the response is not one that must persist nothing, then after response start the record named by the cookie holds exactly the session's data |
| Middleware.SavedIsLoaded | src/redis_fastapi/sessions.py:624-712 | And the next load returns it if and only if the response created the session or gave it a new identifier, or the session was still loadable when the save reached the server |
| Middleware.RotatesWhenAsked | src/redis_fastapi/sessions.py:421-422 | A response that succeeds names a new identifier if and only if a rotation was asked for or the principal changed; the old one is then gone and the new one loadable with the session's data and a full absolute clock, and otherwise the old one stays and no other appears |
| Middleware.FailedChangeLeavesNoTrace | src/redis_fastapi/sessions.py:402-407 | A failed response after a change of identity, or a request for a rotation, sends nothing and sets no cookie |
| Middleware.HandlersRotationStands | src/redis_fastapi/sessions.py:409-413 | A handler that rotated for itself keeps its identifier: the cookie names it and no key is deleted |
| Middleware.RevokedStaysRevoked | src/redis_fastapi/sessions.py:398-400 | A revoked session has its cookie cleared and nothing written, and a record that had not loaded is deleted |
| Middleware.WrittenWhenChanged | src/redis_fastapi/sessions.py:424-457 | With no change of identity, the session is written and named by a cookie if and only if it was used, is not empty, and was changed or is always saved; the cookie is cleared if and only if a stored session was emptied; and nothing is sent but for these and a restart of the idle clock |
| Middleware.IndexedAsStored | src/redis_fastapi/sessions.py:816-848 | The index entry written beside a record carries the record's two stamps and expires with the session |
| Middleware.RotatedIsIndexed | src/redis_fastapi/session_backend.py:811-858 | So does the entry a rotation writes, with a full absolute clock |
| Middleware.SaveKeepsCreation | src/redis_fastapi/sessions.py:816-848 | A loaded session keeps its time of creation when it is saved |
| Middleware.SignedOutLeavesNothing | src/redis_fastapi/session_backend.py:871-902 | Signing out a loaded session leaves neither its key nor its entry under the subject it was loaded with |
| Middleware.RevokedIsUnindexed | src/redis_fastapi/session_backend.py:871-902 | A revocation takes the entry out of the index of the subject it is given, or else of the one the session was loaded with |
| Middleware.UnloadedIsForgotten | src/redis_fastapi/sessions.py:667-679 | Signing out or revoking on a cookie whose record did not load deletes that record and clears the cookie |
| Middleware.RotatedLeavesNothing | src/redis_fastapi/session_backend.py:811-858 | Nor does a change of principal leave either of the old identifier |
| Middleware.PrincipalsAgree | src/redis_fastapi/sessions.py:883-891 | Two sessions have the same default principal if and only if they agree on every configured name, and none if and only if all are null |
| Middleware.SubjectIsFirst | src/redis_fastapi/sessions.py:894-905 | The default subject is the text of the first configured value that is not null |
| Middleware.GateTellsWhy | src/redis_fastapi/sessions.py:1124-1222 | A request with no cookie, a session that is gone, one that could not be read and one issued too long ago are each refused for that reason, and a loaded one is admitted where there is no limit |
| Middleware.GateRefusesTheEnded | src/redis_fastapi/sessions.py:1207-1222 | A session its handler has ended is refused as missing whatever the limit; any other that loaded is refused for its age alone |
| Middleware.EmptyingSignsOut | src/redis_fastapi/sessions.py:391-457 | An emptied session is gone from the server and its cookie cleared, even when its record could not be read, if and only if it is not a failed response with a changed identity on a loaded session |
| Middleware.FailedResponseKeepsTheSession | src/redis_fastapi/sessions.py:402-407 | A signed-in session emptied by a handler that answers 401 is still there, and no cookie is cleared |
| Middleware.ReadingRestartsTheIdleClock | src/redis_fastapi/sessions.py:427-457 | Where loads do not refresh, the response to a request that read its session restarts the idle clock and leaves the deadline alone |
| Middleware.SessionMiddleware.Load | src/redis_fastapi/sessions.py:559-605 | A request starts with the loaded record, its subject and remaining time, or with an empty session that remembers a cookie it could not load, or fails when a failed read must |
| Middleware.SessionMiddleware.Write | src/redis_fastapi/sessions.py:816-848 | Creates or saves, then re-asserts the index entry with the remaining time |
| Middleware.SessionMiddleware.OnResponseStart | src/redis_fastapi/sessions.py:624-712 | Sends exactly the commands and sets exactly the cookie the outcome calls for, and loses no write; a sign-out clears the cookie even if the delete of an unreadable record fails |
| Requests.LoadsAlike | src/redis_fastapi/session_backend.py:587-654 | With nothing in between, the two commands of a load and the judgement of their replies start the request the middleware would: with the session, without one, or, when a read fails, as the policy says |
| Requests.ChecksAlike | src/redis_fastapi/session_backend.py:1425-1448 | And the two answers about a listed session come to the store's liveness test |
| Embedding.ActKeepsInv | src/redis_fastapi/sessions.py:521-712 | Whatever any request does next, the commands it has still to send stay ones the life cycle allows |
| Embedding.RunIsTrace | src/redis_fastapi/sessions.py:521-712 | Every run of concurrent requests, seen from the server, is a run of the life cycle |
| Embedding.RequestsNeverRevive | src/redis_fastapi/session_backend.py:668-686 | No run of requests makes a dead session load again |
| Embedding.SentDeleteIsFinal | src/redis_fastapi/session_backend.py:736-748 | In every run of requests, a delete some request sent is final |
| Endings.RotationNeverLeavesTwo | src/redis_fastapi/session_backend.py:811-858 | In every run of concurrent requests, wherever a rotation by a handler or a response stops, no state has both the old and the new identifier load, and once the new one exists the old one is over for good |
| Endings.RevokeAllEnds | src/redis_fastapi/session_backend.py:936-959 | In every run, a session that revoke_all read in the index is dead for good once its delete is sent, and all of them are once only the clearing is left |
| Endings.RevokeByIdEnds | src/redis_fastapi/session_backend.py:904-934 | In every run, a revocation by id of an identifier not indexed under the subject sends nothing, and an accepted one is final once its delete is sent |
| Endings.PruningIsSafe | src/redis_fastapi/session_backend.py:1007-1054 | In every run, a listing drops only entries of sessions that no later state loads |
| Principals.ActKeepsInv | src/redis_fastapi/sessions.py:624-712 | Every action of every request keeps: a named identifier holds only payloads of its principal, and requests write only to it or to identifiers of their own no cookie has named |
| Principals.OnePrincipal | src/redis_fastapi/sessions.py:641-706 | From the first cookie that names an identifier, over all runs of concurrent requests, handler rotations and failures, every payload found under it has the principal of the session that response was sent with |
| IndexCoverage.DefaultsAreListed | src/redis_fastapi/sessions.py:883-905 | The default subject is a function of the default principal |
| IndexCoverage.IndexIsExact | src/redis_fastapi/sessions.py:816-848 | In every ordinary run, a live session whose data has a subject is indexed under it until its deadline at least, once its creating request is done, and under no other subject |
| IndexCoverage.EntryFollowsKey | src/redis_fastapi/session_backend.py:963-996 | An entry written expires no earlier than the key, and no later than the key plus the time its request has been going |
| IndexCoverage.RevokeByIdEndsItsOwn | src/redis_fastapi/session_backend.py:904-934 | In every ordinary run, a session an accepted revocation by id ends has data of that very subject |
| Cookies.CookieOutlivesSession | src/redis_fastapi/sessions.py:850-880 | Outside cookie-only mode, at every point of every run, the latest cookie naming an identifier expires no earlier than its key |
| Cookies.GateSeesTrueAge | src/redis_fastapi/sessions.py:1184-1222 | The age a request reports is its identifier's true age at a moment since the request arrived, and the recency gate admits it if and only if that age is within the limit |
| Texts.DecodedEncodes | src/redis_fastapi/cache.py:1489-1497 | A body that decodes as UTF-8 encodes back to the same bytes |
| Texts.EncodedDecodes | src/redis_fastapi/cache.py:833-835 | Every text an entry can hold decodes from its encoding |
| Replay.ExcludedFromStorage | src/redis_fastapi/cache.py:396-421 | The loop over Connection fields and their tokens computes the set of names left out |
| Replay.ExcludedAre | src/redis_fastapi/cache.py:396-421 | A name is left out if and only if it is one of the fixed ones or a Connection field lists it, blanks and case apart |
| Replay.StripDrops | src/redis_fastapi/cache.py:416-420 | A token of a Connection field with ASCII blanks of any kind around it is the token |
| Replay.MissStoresTheSame | src/redis_fastapi/cache.py:372-393 | The fields the library adds to a miss change neither what may be stored of it nor what Connection names |
| Replay.HitIsStoredPlusOwn | src/redis_fastapi/cache.py:501-532 | A hit carries the stored fields as they are, then the library's own |
| Replay.HitReplaysMiss | src/redis_fastapi/cache.py:813-855 | A 200 built from an entry has the same body and, owned fields and length apart, the miss's fields in order and with repetition, less the excluded ones, names in lower case |
| Replay.NotModifiedIsTheHitCutDown | src/redis_fastapi/cache.py:501-532 | A 304 is the 200 of the same entry cut down to the fields a 304 carries |
| Replay.EchoIsCurrentWhenAscii | src/redis_fastapi/cache.py:1289-1310 | The validators of miss and hit are equal, and echoing the miss's gets a 304, if and only if the validator is ASCII |
| Revalidation.TagDecides | src/redis_fastapi/cache.py:463-484 | With any If-None-Match the answer is a 304 if and only if that is the tag the answer itself carries, which is the entry's |
| Revalidation.TagIsTheEndpoints | src/redis_fastapi/cache.py:1289-1310 | The tag of a hit is the endpoint's own, or the hash of the body when it sent none |
| Revalidation.DateDecides | src/redis_fastapi/cache.py:486-498 | Without a tag the answer is a 304 if and only if the client names a date, the miss carried one that may be stored, both parse and the client's is no earlier; so echoing the miss's date gets one if it parses, and no condition the whole response |
| Revalidation.LengthIsTrue | src/redis_fastapi/cache.py:813-855 | A 200 has the entry's body and announces its length in bytes; a 304 has neither |
| Revalidation.NeverReplayed | src/redis_fastapi/cache.py:396-421 | No field of a hit but the library's own is one of the excluded names, a Set-Cookie, a Date, a transfer coding and proxy credentials among them, or named by the miss's Connection |
| Revalidation.NotModifiedCarries | src/redis_fastapi/cache.py:300-305 | A 304 carries Vary, Content-Location and Expires as the 200 would, and of the rest only what the library owns |
| Revalidation.ControlSays | src/redis_fastapi/cache.py:185-210 | The Cache-Control value forbids storing, and is private, exactly when it should, and its age limit is the time left, or none when there is none |
| Replay.AccentedTagNeverMatches | src/redis_fastapi/cache.py:1289-1310 | An endpoint's own tag with an accent, echoed as the miss sent it, gets the whole response again |
| Capture.CaptureSend.Receive | src/redis_fastapi/cache.py:1398-1515 | Each message changes buffer, flags, what was sent and what was stored as one step of the capture |
| Capture.CaptureSend.FlushOversized | src/redis_fastapi/cache.py:1223-1262 | An oversized response is let go: its start, what was held, and the message at hand |
| Capture.CaptureSend.StoreEntry | src/redis_fastapi/cache.py:1265-1338 | Writes the entry if it can, and answers with the fields the cache owns either way |
| Capture.RunFollows | src/redis_fastapi/cache.py:1398-1515 | After any prefix of a response, what was sent, held and stored is what the stream so far calls for, or the response was disturbed and stays so |
| Capture.TransparentUnlessDisturbed | src/redis_fastapi/cache.py:1384-1517 | The client gets exactly one start, with its status and foreign fields, before any body, the same bytes and the debug messages in order, if and only if no extension message arrives while bytes are held back or after a held response was sent |
| Capture.TrailersDropTheBody | src/redis_fastapi/cache.py:1431-1446 | Trailers between two chunks: the chunk held so far is never sent |
| Capture.TrailersStartAgain | src/redis_fastapi/cache.py:1431-1446 | Trailers after the last chunk: a second start is sent |
| Capture.HoldsNoMoreThanTheLimit | src/redis_fastapi/cache.py:1456-1469 | No stream, however malformed, makes the buffer exceed the limit |
| Capture.AtMostOneEntry | src/redis_fastapi/cache.py:1476-1505 | At most one entry is written, when the response is complete, and it holds the complete body |
| Capture.StoredWhenAllowed | src/redis_fastapi/cache.py:1476-1505 | An undisturbed response is stored, under the operation's key and to expire after its TTL if that is positive, exactly when an operation is pending, the rules admit it, it fits, it is UTF-8, no extension message followed its start and Redis can be written |
| Capture.StartSays | src/redis_fastapi/cache.py:1476-1515 | The start of a response held to its end keeps the status and says whether the body can be replayed: a miss with tag and age limit, a bypass, or, when the session was read undeclared, private and not to be stored |
| Capture.OversizedIsBypassed | src/redis_fastapi/cache.py:1223-1262 | A response too large to hold goes out as a bypass with its other fields as they are |
| CacheKey.UnescapeEscape | src/redis_fastapi/cache.py:109-124 | Percent-decoding a percent-encoded text gives its bytes back |
| CacheKey.PlainIsKept | src/redis_fastapi/cache.py:109-124 | A text of letters, digits and the four unreserved marks is its own encoding |
| CacheKey.OthersAreEscaped | src/redis_fastapi/cache.py:109-124 | Every other byte is encoded by a percent sign and two digits, but for the blank of a query, which is a plus |
| CacheKey.SegmentsAre | src/redis_fastapi/cache.py:109-112 | The segments, joined, are the path between its outer slashes |
| CacheKey.BeforeIs | src/redis_fastapi/cache.py:121 | Names are ordered as texts are: a proper front first, and otherwise by the first character in which they differ |
| CacheKey.SortIsStable | src/redis_fastapi/cache.py:121 | Sorting query items by name is stable and loses none |
| CacheKey.SameWhenSorted | src/redis_fastapi/cache.py:121 | Two queries sort to the same list if and only if each name has the same values in the same order |
| CacheKey.KeysAgreeExactly | src/redis_fastapi/cache.py:78-124 | Under one prefix, two requests share a key if and only if they have the same eviction group, the same path segments, and under every name the same values in the same order |
| EvictionGroup.PatternSelectsPrefix | src/redis_fastapi/cache_backend.py:109-124 | The escaped pattern matches a key if and only if the key starts with the group's own prefix, whatever the group's name contains |
| EvictionGroup.CoversBuiltKeys | src/redis_fastapi/cache_backend.py:86-107 | It covers every backend key of the group |
| EvictionGroup.CoversDefaultKeys | src/redis_fastapi/cache.py:109-124 | It covers every cached response of the group but the root path with no query |
| EvictionGroup.RootPageStays | src/redis_fastapi/cache.py:109-124 | Clearing group "a" leaves the cached response of its root path |
| EvictionGroup.SelectsBuiltKey | src/redis_fastapi/cache_backend.py:86-124 | The pattern of one group selects a backend value of another, or of none, if and only if the other's name and the value's key spell out the first's name and a brace and a colon |
| EvictionGroup.GroupsApart | src/redis_fastapi/cache_backend.py:86-124 | Clearing one group leaves every backend value of another if and only if neither name, followed by a brace and a colon, starts with the other so followed |
| EvictionGroup.SelectsDefaultKey | src/redis_fastapi/cache.py:109-124 | The pattern of one group selects a cached response of any group or none if and only if it is one of its own, not the root path with no query, or the other group's name starts with its own and a brace and a colon |
| EvictionGroup.BracelessNamesAreApart | src/redis_fastapi/cache_backend.py:86-124 | Names without a closing brace overlap only when equal |
| EvictionGroup.BracesMayOverlap | src/redis_fastapi/cache_backend.py:109-124 | With a closing brace in a name, clearing "a" reaches into "a}:b", and clearing "a}:b" into "a" |
| EvictionGroup.BracesReachResponses | src/redis_fastapi/cache_backend.py:109-124 | Clearing "a" takes every cached response of "a}:b" along |
| EvictionGroup.UngroupedMayBeTaken | src/redis_fastapi/cache_backend.py:86-124 | A value kept in no group under the key "{a}:x" goes when group "a" is cleared |
| CacheBackends.CacheBackend.EvalDelete | src/redis_fastapi/cache_backend.py:38-52 | The script removes exactly the matching keys, page by page and 1000 at a time, and counts those removed; when it fails it has removed some of them and nothing else |
| CacheBackends.CacheBackend.ScanDelete | src/redis_fastapi/cache_backend.py:348-372 | The fallback removes exactly the matching keys in batches of 1000; an error leaves exactly the batches done removed; either way it counts those removed |
| CacheBackends.CacheBackend.DeleteGroup | src/redis_fastapi/cache_backend.py:285-331 | Of the keys there were, exactly those under the group's prefix are gone, by the script or, when it fails, by the scan; the count is exact unless the script failed, and never too high |
| CacheBackends.PositiveSpansExpire | src/redis_fastapi/cache_backend.py:213-220 | A time span leads to an expiry if and only if it is positive, and then to its whole seconds, one at least |
| CacheBackends.SecondsExpire | src/redis_fastapi/cache_backend.py:213-220 | Whole seconds expire as the time span of so many seconds does, and as the default of so many does when no TTL is given; what is not positive never expires |
| CacheBackends.KeysAreApart | src/redis_fastapi/cache_backend.py:86-107 | Within a group two values share a key if and only if they have the same name |
| CacheBackends.GroupsAreShared | src/redis_fastapi/cache_backend.py:86-107 | A call that names a group uses that one, and one that names none the backend's own |
| CacheBackends.CacheBackend.Delete | src/redis_fastapi/cache_backend.py:243-263 | Removes one key and says whether it was there, or does nothing and says no when Redis fails |
| WindowCounter.TiersAgreeExactly | src/redis_fastapi/ratelimit_backend.py:27-46 | The script and INCREX do the same if and only if the counter is absent, the charge is refused, or its value and expiry are of the listed kinds |
| WindowCounter.TiersCharge | src/redis_fastapi/ratelimit_backend.py:270-341 | On every state a limiter leaves behind both tiers charge alike, keep the expiry and leave such a state |
| WindowCounter.CounterIsExact | src/redis_fastapi/ratelimit_backend.py:27-46 | After any run of hits by any clients the counter equals the cost admitted since its window began, is at most the limit, and always carries an expiry |
| WindowCounter.AnyWindowAdmitsUnderTwice | src/redis_fastapi/ratelimit_backend.py:216-268 | Any interval of window length admits less than twice the limit |
| WindowCounter.TwiceLessOneIsReached | src/redis_fastapi/ratelimit_backend.py:216-268 | For limits of two or more and windows of two milliseconds or more no smaller bound holds: a run admits one less than twice the limit in one window |
| RateLimiter.RateLimitBackend.Execute | src/redis_fastapi/ratelimit_backend.py:270-309 | When the probe answers truly, or not at all, the check is served by the tier the server has, and that is remembered |
| RateLimiter.RateLimitBackend.Hit | src/redis_fastapi/ratelimit_backend.py:216-268 | A check is allowed exactly when its cost fits, and only then grows the counter; an unreachable server charges nothing and answers by policy; no other key, and so no other client of the scope, is touched |
| RateLimiter.RateLimitBackend.Peek | src/redis_fastapi/ratelimit_backend.py:390-416 | Looking does not charge, and foretells a check of cost one; the reset time is that of the later PTTL answer, exact when nothing came between |
| RateLimiter.RateLimitBackend.Reset | src/redis_fastapi/ratelimit_backend.py:379-388 | Removes one counter and says whether it was there, or does nothing and says no when Redis fails; no other client of the scope is touched |
| RateLimiter.ClientsApart | src/redis_fastapi/ratelimit_backend.py:193-210 | Within a scope two clients share a counter if and only if they are one |
| RateLimiter.ScopesApart | src/redis_fastapi/ratelimit_backend.py:193-210 | Two scopes, under one prefix or two, share no counter whoever their clients are if and only if neither's prefix and scope, as written in the key, start with the other's |
| RateLimiter.PlainScopesAreApart | src/redis_fastapi/ratelimit_backend.py:193-210 | Under one prefix, scopes that are named and have no colon are apart unless they are one |
| RateLimiter.ScopesMayMeet | src/redis_fastapi/ratelimit_backend.py:193-210 | Client `login:ada` in no scope and client `ada` in scope `login` share a counter |
| Rates.ScanMeetsPattern | src/redis_fastapi/rate.py:31-37 | The scanner accepts exactly the texts the pattern matches, with the shortest unit |
| Rates.DecimalReadsBack | src/redis_fastapi/rate.py:69-80 | A printed number of any size reads back |
| Rates.ParseRate | src/redis_fastapi/rate.py:87-120 | A pair is a rate if and only if both numbers are positive, a rate is returned as it is, and what a text is accepted as is a valid rate |
| Rates.CompactMeans | src/redis_fastapi/rate.py:31-120 | A limit, a slash, an optional multiple and a word are a rate if and only if the numbers are positive and the word, in capitals or not and with or without a plural s, is one of the eleven names of units; the window is the multiple of the unit |
| Rates.ReadsAsCompact | src/redis_fastapi/rate.py:31-120 | Any text the pattern matches reads as the compact one with its numbers and its word |
| Rates.WaysOfWriting | src/redis_fastapi/rate.py:31-120 | So with blanks of any kind anywhere, and with "/" or "per", the rate is the same |
| Rates.AsciiBlanks | src/redis_fastapi/rate.py:31-37 | The six ASCII blanks are blanks to the pattern |
| Rates.PrintParses | src/redis_fastapi/rate.py:69-120 | Parsing a printed rate gives it back, for every positive limit and window |
| Rates.PrintsAs | src/redis_fastapi/rate.py:69-80 | A rate prints with a unit's long name when its window is that unit, and otherwise as so many seconds |
| Rates.PrintIsCanonical | src/redis_fastapi/rate.py:69-80 | Two rates print alike if and only if they are equal |

## Left out

- The Redis 7.4 command tier of sessions (HSET then HEXPIRE in one pipeline): there a save drops and restores the field expiry in two commands; the model has the 8.0 commands only.
- INCREX and the PTTL read after it are one step, as the script is; a key that expires between them is not modelled.
- Server-side lazy expiry, millisecond rounding of TTL, eviction and replication: what is due is gone at once.
- Coders, encryption, JSON, base64, hashing, date parsing: records, descriptors and bodies are held decoded; the hash and the date parser are parameters.
- Commands still on the wire when an operation fails: a failed operation sends no more, though each of its commands may or may not have been sent.
- Index entries whose descriptor does not decode, and telemetry, logging and warnings.
- A principal or subject resolver that raises, and one that depends on anything but the session's data.
- Index coverage in runs where a handler itself rotates, an operation fails part-way, or a sign-in adds to a subject's index between revoke_all's reading and clearing it: `IndexSteps.Ordinary` excludes them, and the new entry can then be missing or stand under the old subject until the next write.
- Middleware.SessionMiddleware.OnResponseStart: the Vary and Cache-Control headers it adds for a session that was read, and cookie attributes other than the id and max-age, are not modelled; nor is the skip list.
- Store methods other than a load and a listing assume a server that answers; an operation that fails part-way raises, and `Requests.Fail` stops it after any of its commands.
- Sessions.UnmodifiedMeansUnchanged: values are flat, so a change inside a nested value, which sets no flag and which the source documents as unseen, is not one of the operations; likewise Sessions.Session.PerformAll.
- `Session.__or__`, which makes a new mapping and leaves the session alone.
- The recency gate's response building, its custom rejection callback and its configuration errors.
- Which responses may be stored (status, media type, charset, Vary, encoding, header size) and the cross-user guard: the storage policy is an arbitrary function of status and headers.
- Lookup-side freshness (`max-age` of the request), the `:u:` suffix of per-user keys, and `cache_evict`: they add only easy members.
- A limiter script served by a server that times out half-way, clusters and sentinels, pools, lifespan and the sync facades.
- Scans of the key space while other clients write: one whole scan of a store nothing else writes to is assumed. A deletion whose reply is lost in the fallback scan.
- Group patterns under a prefix that itself contains glob characters.
- Rates.PrintParses: CPython refuses to convert integers of more than 4300 decimal digits to or from text; the model's integers have no such limit.
- Rates.ScanMeetsPattern: digits are the ASCII ones; other Unicode decimal digits, which the source's `\d` also admits, are not modelled.
