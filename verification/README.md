# go-irmik, modelled and proved

A Dafny 4.11 model of the concurrent protocols, caches and printers of the go-irmik web framework. Each
component has a specification on values; where the program changes state in place, a class whose methods are
proved equal to that specification; and, where several goroutines meet, a step relation whose steps are the
program's critical sections and channel operations. The main results hold for every input, every run or every
interleaving.

| file | models |
|---|---|
| `RateLimit.dfy`, `RateLimitWindow.dfy`, `RateLimitLaws.dfy` | the token-bucket limiter, when its collector shows, and what clients may rely on |
| `Refresh.dfy`, `Rotation.dfy` | one-time refresh tokens, revocation, and rotation over the store |
| `RenderCache.dfy`, `RenderEngine.dfy` | the compiled-template cache under interleavings, and the engine as an object |
| `WsRooms.dfy`, `WsHub.dfy`, `WsDelivery.dfy`, `WsLeaving.dfy` | the WebSocket hub: room index, channel safety, deliveries, and clients that leave |
| `CacheKey.dfy`, `IsrStore.dfy`, `Isr.dfy`, `IsrForgets.dfy`, `IsrAlone.dfy` | page keys, the page store, incremental static regeneration, what its store forgets, and the request served alone |
| `Sse.dfy`, `SseHub.dfy`, `SseHubOrder.dfy` | the Server-Sent Events printer against the standard's parser, the fan-out hub, and when its order is kept |
| `Queue.dfy` | the in-memory job queue |
| `SessionLife.dfy`, `SessionRace.dfy`, `Session.dfy` | cookie sessions and one-shot flash, two requests at once, and the cloning store |
| `Resize.dfy`, `VariantCache.dfy`, `VariantRace.dfy` | image dimensions, the variant cache, and its gets and sets interleaved |
| `Inject.dfy`, `Lowering.dfy`, `InjectPlaces.dfy` | the development overlay's buffering writer, lower-casing of UTF-8 text, and where the tag goes |
| `EntryAssets.dfy` | style sheets of an island entry |
| `Base64.dfy`, `Password.dfy` | password hash texts |
| `Strings.dfy`, `Decimals.dfy`, `Common.dfy` | shared text and numbers |

Clock readings, fresh ids, randomness, template execution, cryptography and the disk are inputs. A sequence of
moves in which some are not enabled is still a run: such moves change nothing.

What the code does where one might expect otherwise:

- The limiter's collector is visible when burst < 1 or burst > 600 * rps (`RateLimit.CollectorInvisibleIff`); then
  refused calls show too (`RateLimitLaws.RefusedInvisibleIff`), and when max(1, burst) > 600 * rps a client can get
  more than the bound (`RateLimitWindow.WindowBoundIff`).
- `Refresh` spends the token before it looks at the user (`Rotation.RefreshSpends`), and `Put` does not look at
  revocations (`Refresh.PutDuringRevocation`).
- `Client.Join` after removal makes the next message to that room a send on a closed channel
  (`WsHub.LateJoinPanics`). Nothing does this: a `Client` is made only in `ServeHTTP`, which joins before it registers
  (`WsHub.ServeHTTPNeverPanics`) and hands the client to nobody.
- After `Close` a client can stay in the index with its channel open (`WsLeaving.StaysIff`, `WsLeaving.ClientStays`).
- The page store may delete a fresh entry (`Isr.ForgetsIff`, `IsrForgets.StoreForgets`) and may go back to an older one
  (`IsrForgets.GoesBackIff`, `IsrForgets.OlderPageReturns`). The expired branch of `serveISR` is reached with the
  memory store only when an entry expires between the store's check and the handler's (`Isr.ExpiredInHand`).
- Data of an event with a carriage return does not survive the standard's parser (`Sse.DataArrivesIff`), and a comment
  with a line break can deliver an event (`Sse.CommentDelivers`); `Sse.NoteDeliversNothingIff` says when.
- Concurrent broadcasts have no common order of delivery (`SseHub.OrdersMayDiffer`); only calls under way together can
  be swapped (`SseHubOrder.SwappedOverlapped`).
- The tag is placed by a position in the lower-cased page. Runes whose lower case has another length shift it: into the
  text before the end tag (`InjectPlaces.TagInsideParagraph`), past it, or past the page, which panics
  (`InjectPlaces.LettersPanic`); `InjectPlaces.PlacedIff` says exactly when it is right.
- With a directory, a get that overlaps a set can bring the old body back after the set has returned
  (`VariantRace.OldBodyReturns`), and two sets at once can leave memory and directory with different bodies
  (`VariantRace.SetsDisagree`); `VariantRace.AlwaysAnswersIff` says exactly when one body is the answer from then on.
- A request still working under a regenerated session's old id puts it back if it saves (`SessionRace.OldIdReturnsIff`,
  `SessionRace.OldIdReturns`).
- A second `Close` of the queue does not wait (`Queue.SecondCloseDoesNotWait`, `Queue.ReturnsEarlyIff`), although its
  comment says Close waits for delayed senders; and an `Enqueue` past its check may send after Close has returned
  (`Queue.PushAfterCloseReturned`, `Queue.SendsAfterCloseIff`).
- A save by the handler followed by another change loses a flash message (`SessionLife.FlashReadableIffSavedOnce`,
  `SessionLife.SavedTwiceLosesFlash`).
- A flat image can be given height zero and a narrow one width zero (`Resize.FlatImagesVanish`, `Resize.VanishingImages`).
- `EntryAssets` keeps no record of visited chunks: a reachable import cycle makes its recursion unbounded
  (`EntryAssets.BoundedIffAcyclic`, `EntryAssets.SelfImportIsUnbounded`).
- A stored Argon2id text with no passes, no threads or no key makes checking panic (`Password.CheckPanicsIff`).

## Model

| member | source | states |
|---|---|---|
| RateLimit.TokenLimiter.constructor | irmik/middleware/ratelimit.go:105-111 | A new limiter has the given rate and burst and no buckets |
| RateLimit.TokenLimiter.Allow | irmik/middleware/ratelimit.go:113-137 | One call on the map of shared bucket objects answers and changes the buckets as the one-call specification says, collection included; no two clients ever share a bucket |
| RateLimit.TokenLimiter.GcLocked | irmik/middleware/ratelimit.go:139-145 | Exactly the buckets untouched for more than ten minutes are dropped; the others are the same objects, unchanged |
| RateLimit.CoversRun | irmik/middleware/ratelimit.go:113-145 | From any moment on, a collecting limiter whose missing buckets would be full again answers like one that never collected, on every run with a nondecreasing clock |
| RateLimit.TinyBurstIsVisible | irmik/middleware/ratelimit.go:118-137 | With a burst below one token there is a run on which the collector changes an answer |
| RateLimit.LargeBurstIsVisible | irmik/middleware/ratelimit.go:118-145 | With a burst above ten minutes' refill there is a run on which the collector changes an answer |
| RateLimit.CollectorInvisibleIff | irmik/middleware/ratelimit.go:118-145 | Dropping idle buckets is invisible on every run if and only if 1 <= burst <= 600 * rps |
| RateLimit.DefaultBurstIsTransparent | irmik/middleware/ratelimit.go:36-45 | With the burst left to its default, the collector shows only for rates below one token in ten minutes |
| RateLimit.LoginIsTransparent | irmik/middleware/ratelimit.go:30-45 | The login limiter is unaffected as it comes; overriding only the rate makes it so exactly from five tokens in ten minutes up |
| RateLimit.BurstAtOnce | irmik/middleware/ratelimit.go:113-137 | Of the calls a new client makes at one instant, the first is allowed and then exactly as many as make up the burst |
| RateLimit.NormaliseKeeps | irmik/middleware/ratelimit.go:36-45 | Positive settings are kept; a missing rate is fifty, a missing burst twice the rate and at least one |
| RateLimit.DefaultAllowsHundred | irmik/middleware/ratelimit.go:36-45 | With nothing set a new client may make exactly a hundred calls at once |
| RateLimit.LoginAllowsFive | irmik/middleware/ratelimit.go:30-45 | The login limiter as it comes allows exactly five at once, five a minute |
| RateLimitWindow.CollectGivesNothing | irmik/middleware/ratelimit.go:139-145 | If ten minutes refill a whole bucket, dropping an idle bucket adds nothing to what its client can get |
| RateLimitWindow.WindowHolds | irmik/middleware/ratelimit.go:113-145 | In every window of every run with a nondecreasing clock at most max(1, burst) + rps * length calls of one client are allowed, without the collector always and with it if ten minutes refill a whole bucket |
| RateLimitWindow.LargeBurstGetsMore | irmik/middleware/ratelimit.go:113-145 | Otherwise a client that drains its bucket, idles and drains a new one exceeds the bound |
| RateLimitWindow.WindowBoundIff | irmik/middleware/ratelimit.go:113-145 | The limiter as it is keeps the bound on every run if and only if max(1, burst) <= 600 * rps |
| RateLimitLaws.NeverRefusesPatientIff | irmik/middleware/ratelimit.go:113-145 | A client whose calls are at least 1/rps apart is never refused, whatever others do and whenever buckets are collected, if and only if the burst is at least one token |
| RateLimitLaws.RefusedIsInvisibleUncollected | irmik/middleware/ratelimit.go:126-134 | Taking a refused call out of a run changes no other answer, without collection and for any burst |
| RateLimitLaws.RefusalShows | irmik/middleware/ratelimit.go:126-145 | A refused call can keep a bucket from being collected and so change a later answer |
| RateLimitLaws.RefusedInvisibleIff | irmik/middleware/ratelimit.go:113-145 | With the collector, taking refused calls out changes no other answer on any run if and only if 1 <= burst <= 600 * rps |
| Refresh.MemoryRefreshStore.constructor | irmik/auth/refresh.go:40-49 | An empty store; a lifetime that is not positive becomes seven days |
| Refresh.MemoryRefreshStore.Put | irmik/auth/refresh.go:52-58 | Collects if due, then stores the token, without looking at revocations |
| Refresh.MemoryRefreshStore.Consume | irmik/auth/refresh.go:61-78 | Collects if due, then removes the token whatever the outcome; boundary instants as in the code |
| Refresh.MemoryRefreshStore.RevokeUser | irmik/auth/refresh.go:81-92 | Collects if due, bars the user until now + ttl and removes exactly the user's tokens |
| Refresh.MemoryRefreshStore.Revoked | irmik/auth/refresh.go:95-102 | Collects if due, then tells whether a bar is in force |
| Refresh.MemoryRefreshStore.GcLocked | irmik/auth/refresh.go:104-119 | Nothing within a minute of the last collection while few tokens are stored; otherwise exactly the expired tokens and lapsed bars go |
| Refresh.CollectionInvisible | irmik/auth/refresh.go:52-119 | On every history with a nondecreasing clock each call answers the same whenever collections fire, including never |
| Refresh.ProgramIsSchedule | irmik/auth/refresh.go:104-110 | The program's own rule for collecting is one of those schedules |
| Refresh.ConsumeIff | irmik/auth/refresh.go:61-119 | Consume succeeds exactly when the history holds an unexpired Put of the id that no later Put, Consume or revocation overrules, and no revocation is in force |
| Refresh.RedeemedOnce | irmik/auth/refresh.go:61-78 | A token consumed once is not redeemable again without a new Put of its id |
| Refresh.RevokedStaysOut | irmik/auth/refresh.go:74-92 | After RevokeUser at t nothing of that user is redeemable before t + ttl, tokens put meanwhile included; tokens put before it never are |
| Refresh.RevokedIff | irmik/auth/refresh.go:81-102 | Revoked answers true exactly when the history holds a revocation of the user less than the lifetime ago |
| Refresh.NothingOutstays | irmik/auth/refresh.go:104-119 | Right after any call, every token stored expires no earlier than a minute ago or was put within the last minute, and no bar lapsed more than a minute ago |
| Refresh.PutDuringRevocation | irmik/auth/refresh.go:52-58 | A token put during a revocation is redeemable once the revocation has lapsed |
| Rotation.Authenticator.IssueTokenPair | irmik/auth/jwt.go:89-112 | Without a secret or randomness nothing is stored; otherwise one refresh token of the user is |
| Rotation.Authenticator.Refresh | irmik/auth/jwt.go:115-125 | Consume, then the subject, revocation and user checks in order, then a new pair; the token is spent before the checks |
| Rotation.RefreshNeverGrows | irmik/auth/jwt.go:115-125 | No Refresh, successful or not, leaves more tokens stored than before |
| Rotation.RefreshSpends | irmik/auth/jwt.go:120-124 | A token presented once, even for the wrong user, is refused by the next Refresh, whoever asks |
| Rotation.RotateIff | irmik/auth/jwt.go:115-125 | A Refresh answers exactly when the token presented is an unexpired one the store holds for the user, the user is not barred, and the system can make a new one; the new one is then stored for the user with the full lifetime |
| Rotation.RotateThenRotate | irmik/auth/jwt.go:89-125 | A token from a rotation is as good as one from a login |
| Rotation.ChainLives | irmik/auth/jwt.go:89-125 | A chain of any number of rotations, each with the token of the one before, ends with a token if and only if every round came within the lifetime of the last and unbarred |
| Rotation.AloneIsRotate | irmik/auth/jwt.go:115-125 | At any moment of any interleaving the sections of a Refresh nobody interrupts do what the one-instant form does |
| Rotation.PresentedIsSpent | irmik/auth/jwt.go:115-125 | In every interleaving, once a token has been presented it is not stored and presenting it again gets nowhere until its id is issued again |
| Rotation.IssueThenRefresh | irmik/auth/jwt.go:89-125 | A pair just issued refreshes to a token of the same user exactly until its expiry and unless the user is barred |
| Rotation.TokensNeverOutnumberLogins | irmik/auth/jwt.go:89-130 | In every interleaving of logins, rotations split into their critical sections and revocations, stored tokens and rotations under way never outnumber the logins made |
| RenderEngine.Engine.constructor | irmik/render/render.go:51-75 | Helpers merged with options, the island helper in place, partials loaded, nothing compiled |
| RenderEngine.Engine.SetIslandFunc | irmik/render/render.go:78-89 | Replaces the island implementation and drops everything compiled |
| RenderEngine.Engine.SetFuncs | irmik/render/render.go:92-100 | Merges the functions, never over the island helper, and drops everything compiled |
| RenderEngine.Engine.RebuildFuncs | irmik/render/render.go:102-131 | The loop leaves every function as it was except the island helper, which is always present |
| RenderEngine.Engine.Reload | irmik/render/render.go:140-171 | A failed walk changes nothing; a successful one replaces the partials and drops everything compiled |
| RenderEngine.Engine.GetCompiled | irmik/render/render.go:229-260 | Undisturbed, answers the cached tree or a compile of the file; a failure is not cached, and the cache never changes what any key compiles to on the same disk |
| RenderEngine.Engine.InstallLocked | irmik/render/render.go:251-259 | Installs only in the generation of the snapshot and only for a missing key; otherwise answers what is there |
| RenderEngine.Engine.Render | irmik/render/render.go:188-218 | The loop from the innermost layout out answers html exactly when html is the first layout around the second and so on down to the page, each from the cached template or the file with the engine's functions and partials; otherwise the whole fails |
| RenderEngine.RenderIff | irmik/render/render.go:188-218 | The same of the specification: order of the layouts and content passed to each are fixed |
| RenderEngine.AloneIsCompiled | irmik/render/render.go:229-260 | At any moment of any interleaving the steps of a lookup nobody interrupts do what the one-instant form does |
| RenderEngine.NestedFails | irmik/render/render.go:189-214 | If an inner part fails to compile or run, the whole page fails |
| RenderEngine.CachedIgnoresDisk | irmik/render/render.go:184-187 | What is cached is served whatever happens to the disk |
| RenderEngine.ReloadForgets | irmik/render/render.go:138-171 | After a successful Reload pages come out as from a new engine with the same functions; after a failed one as before |
| RenderCache.InvPlay | irmik/render/render.go:78-100 | The whole invariant of the cache, of lookups under way and of finished lookups, at every moment of every interleaving |
| RenderCache.CacheAgreesWithFreshCompile | irmik/render/render.go:133-171 | In every interleaving each cached tree is a compile, with the functions and partials now in force, of text its file had since the last invalidation |
| RenderCache.OneTreePerGeneration | irmik/render/render.go:229-260 | Lookups of a key that start and finish in one generation return one and the same tree |
| RenderCache.EveryCompileIsNew | irmik/render/render.go:229-260 | In every interleaving a lookup that compiles answers with a tree no other made, every other lookup with one that some lookup made |
| RenderCache.AnswersAreOfOneEra | irmik/render/render.go:237-259 | A lookup overtaken by an invalidation answers with a compile in the functions and partials of the generation it started in, never a mixture, of text its file had since that generation came into force, and since the lookup began if it compiled the tree itself |
| RenderCache.InForceIsLastSet | irmik/render/render.go:78-171 | In every interleaving each function is the one last given for its name, island is always the helper, and the island and the partials are those last set and read |
| WsRooms.Hub.Register | irmik/ws/ws.go:219-222 | Adds the client |
| WsRooms.Hub.JoinRoom | irmik/ws/ws.go:324-334 | Enters the client in the room and the room in the client |
| WsRooms.Hub.LeaveRoom | irmik/ws/ws.go:336-346 | Takes both out again and drops a room that becomes empty |
| WsRooms.Hub.RemoveClient | irmik/ws/ws.go:283-300 | Only a registered client is removed: from every one of its rooms, with emptied rooms dropped, and its channel closed |
| WsRooms.Hub.Dispatch | irmik/ws/ws.go:302-322 | A message to no room is offered once to every client, one to a room once to its members; a full queue drops it, and every other client is unchanged |
| WsRooms.ExitAllIsRepeatedExit | irmik/ws/ws.go:290-297 | Leaving all of one's rooms at once is leaving them one by one, in any order |
| WsHub.SafePlay | irmik/ws/ws.go:214-346 | Index, handlers and dispatch stay consistent in every interleaving |
| WsHub.IndexAlwaysAgrees | irmik/ws/ws.go:283-346 | In every interleaving no channel is closed twice, no empty room is kept, and c is in rooms[r] iff r is in c.rooms for every client not yet removed |
| WsHub.JoinedIffStays | irmik/ws/ws.go:324-346 | In every interleaving a client's rooms are exactly those it joined and did not leave since |
| WsHub.ClosedRecipientIffLate | irmik/ws/ws.go:302-322 | A recipient still to be served has a closed channel exactly when it joined the room after its removal |
| WsHub.PoliteNeverPanics | irmik/ws/ws.go:283-334 | If no Join follows its client's removal, no dispatch ever sends on a closed channel |
| WsHub.ServeHTTPNeverPanics | irmik/ws/ws.go:263-281 | With Join only before registration, as ServeHTTP does, no interleaving sends on a closed channel or closes one twice |
| WsHub.LateJoinPanics | irmik/ws/ws.go:324-334 | A Join after removal does lead to a send on a closed channel |
| WsDelivery.DeliveredInDispatchOrder | irmik/ws/ws.go:302-322 | Each client receives a subsequence of the one dispatch order, in order, made only of messages it was a target of; the dispatch order is the order of the broadcasts |
| WsDelivery.MissedOnlyWhenFull | irmik/ws/ws.go:315-321 | In every run without a panic, a message meant for a client is received, or was dropped because the queue was full, and never both |
| WsDelivery.EveryMessageIsAddressed | irmik/ws/ws.go:302-322 | In every interleaving each message was dispatched by one step to exactly the clients it was meant for at that step: without a room those in the hub, with one those that had joined and not left it |
| WsDelivery.ReceivedIffMeant | irmik/ws/ws.go:302-322 | Without a panic and between dispatches, a client has received exactly the messages meant for it when they were dispatched, those aside that found its queue full |
| WsLeaving.StaysIff | irmik/ws/ws.go:214-300 | In every interleaving, once handler and loop are done with a client it is still in the index if and only if the handler removed it itself, after Close, before the loop had put it there; its channel is closed exactly if it is not |
| WsLeaving.ClientStays | irmik/ws/ws.go:214-229 | A run in which the hub has stopped, the handler has returned, and the client is in the index for good |
| WsLeaving.NobodyHangsAfterClose | irmik/ws/ws.go:231-234 | After Close, in every interleaving, a handler about to register can be turned away and one about to leave can return, at most after the dispatch under way has ended |
| WsLeaving.DispatchCanEnd | irmik/ws/ws.go:315-321 | A dispatch under way can end by its own steps, whatever its recipients do |
| IsrStore.MemoryStore.Get | irmik/cache/memory.go:18-30 | An expired entry is a miss and is deleted; nothing else changes |
| IsrStore.MemoryStore.Set | irmik/cache/memory.go:32-37 | Stores under the key and nowhere else |
| IsrStore.Router.Claim | irmik/router/router.go:468-475 | Claims the key's single flight, or tells that somebody has it |
| IsrStore.Router.ServeISR | irmik/router/router.go:368-409 | Undisturbed: HIT, STALE with at most one background rendering started, or render, store and MISS; a failed rendering stores nothing |
| IsrStore.ServeByAge | irmik/router/router.go:377-409 | A page is a HIT up to its route's revalidate, STALE with one background rendering up to twice that, and replaced after that |
| IsrStore.ServeMissing | irmik/router/router.go:394-408 | With nothing stored the request renders, stores and answers that; a failed rendering stores nothing |
| IsrStore.JudgeByAge | irmik/router/router.go:377-393 | Any entry, by its age: HIT, STALE up to twice the lifetime and beyond if it has a body, else rendered anew |
| CacheKey.HeadSharesGet | irmik/cache/key.go:13-17 | HEAD and GET of a path share a key |
| CacheKey.SameKeyIff | irmik/cache/key.go:13-27 | Two keys are equal, with equally many bars in the methods and in the locales, iff method, path and locale are equal after normalisation, whatever bars the paths hold |
| CacheKey.BarsCollide | irmik/cache/key.go:26-26 | A locale with a bar can collide with a path that has one |
| CacheKey.SamePageIff | irmik/cache/key.go:13-27 | With method and locale fixed, keys are equal iff the normalised paths are, with no condition |
| CacheKey.SamePathIff | irmik/cache/key.go:18-26 | Two paths share a key if and only if they are the same text up to surrounding white space, nothing but white space standing for the root; paths that neither begin nor end with white space, only if equal |
| CacheKey.SpaceAroundPath | irmik/cache/key.go:18-21 | White space around a path makes no difference, and a path of nothing else has the key of the root |
| CacheKey.SameLocaleIff | irmik/cache/key.go:22-25 | Likewise for locales, nothing but white space standing for en |
| CacheKey.SameMethodIff | irmik/cache/key.go:14-17 | Two methods share a key if and only if they are the same letters up to case and surrounding white space, or both are GET, HEAD or nothing |
| Isr.SingleFlight | irmik/router/router.go:468-496 | In every interleaving a key is marked exactly while one revalidation of it is pending or running, and there is never a second |
| Isr.ServedPagesAreGenuine | irmik/router/router.go:368-466 | Every body served came out of a rendering that ended in this run, for a route whose path has the requested key, stamped by the clock of that step; by the clock of the step that gives the answer, a HIT is within that route's revalidate of it and a STALE body past it; a STALE body was fetched within twice that |
| Isr.ServedPathMatches | irmik/router/router.go:373-384 | With the router's key, for any locale, that path is the requested one up to surrounding white space, and the requested one itself if neither begins or ends with any |
| Isr.StoreIsGenuine | irmik/router/router.go:455-466 | Whatever the store holds under a key came out of a rendering that ended in this run, for a route with that key, and goes stale after that route's revalidate and expires after twice that, counted from that step |
| Isr.ExpiredInHand | irmik/router/router.go:386-393 | An entry that expires between the store's check and the handler's is still served if it has a body, and rendered anew if not |
| Isr.ForgetsIff | irmik/cache/memory.go:18-30 | A fresh entry disappears exactly when a request that had seen an older, expired one reaches its delete |
| IsrForgets.FreshPageIsLost | irmik/cache/memory.go:18-30 | Whenever the store holds an expired page, two overlapping requests can lose the page rendered next |
| IsrForgets.StoreForgets | irmik/cache/memory.go:18-30 | For every route there is a run in which the store loses a page at the moment it was rendered |
| IsrForgets.GoesBackIff | irmik/router/router.go:407-494 | What is under a key gets older exactly when a page is stored whose rendering ended before that of the page there |
| IsrForgets.OlderPageReturns | irmik/router/router.go:393-407 | For every route there is a run in which a page rendered earlier replaces one rendered later |
| IsrAlone.AloneIsServe | irmik/router/router.go:368-409 | At any moment of any run a request nobody interrupts has exactly the outcome of the one-instant form: reply, store and single-flight marks |
| Sse.WriteEvent | irmik/sse/sse.go:216-244 | Writing field by field and line by line appends exactly the event's printed form |
| Sse.Stream.Write | irmik/sse/sse.go:112-124 | An open stream appends one event, a closed one nothing |
| Sse.Stream.Comment | irmik/sse/sse.go:146-161 | An open stream appends one comment, a closed one nothing |
| Sse.FeedFrames | irmik/sse/sse.go:193-248 | The standard's parser on any frames followed by any rest continues as if the events had been delivered |
| Sse.ParseUndoesPrint | irmik/sse/sse.go:193-248 | Parsing any stream of events and comments by sections 9.2.5 and 9.2.6 of the HTML Living Standard delivers exactly the events written and what the comments deliver on their own |
| Sse.NoteDeliversNothingIff | irmik/sse/sse.go:146-161 | A comment delivers nothing if and only if its text puts no data field on a line of its own |
| Sse.PlainNote | irmik/sse/sse.go:146-161 | A comment without line breaks delivers nothing and changes nothing |
| Sse.SanitizeDropsBreaks | irmik/sse/sse.go:246-248 | Sanitizing takes line breaks out of a text and nothing else |
| Sse.CommentDelivers | irmik/sse/sse.go:155-155 | A comment with a line break can deliver an event |
| Sse.DeliveredInOrder | irmik/sse/sse.go:216-248 | With comments that deliver nothing and data without carriage returns, the standard's parser makes of the printed stream one dispatch per event, in order, data unchanged, type and id sanitized |
| Sse.DataArrivesIff | irmik/sse/sse.go:237-241 | An event's data arrives unchanged if and only if it holds no carriage return |
| SseHub.Hub.Subscribe | irmik/sse/hub.go:19-28 | A new open channel with the asked capacity, or sixteen |
| SseHub.Hub.Unsubscribe | irmik/sse/hub.go:31-38 | Removes and closes a subscriber, and does nothing to any other channel or the second time |
| SseHub.Hub.Broadcast | irmik/sse/hub.go:42-51 | Every subscriber is offered the event once; a full buffer drops it |
| SseHub.EveryRunDelivers | irmik/sse/hub.go:19-51 | In every interleaving no event is sent on a closed channel, none is closed twice, and a channel accepts only calls made while it was subscribed, each once, those of one goroutine in order |
| SseHub.AudienceIsOpen | irmik/sse/hub.go:42-51 | In every interleaving each broadcast goes to exactly the channels open when it got the lock |
| SseHub.ClosedIffUnsubscribed | irmik/sse/hub.go:19-38 | A channel is closed exactly when it has been unsubscribed |
| SseHub.MissedIffFoundFull | irmik/sse/hub.go:46-49 | A call is missed by a channel exactly when it was offered while the buffer was full |
| SseHub.AllArriveUnlessFull | irmik/sse/hub.go:42-51 | Of the calls made while it was subscribed, a subscriber accepts exactly those that did not find its buffer full when they were offered |
| SseHub.BroadcastCanFinish | irmik/sse/hub.go:42-51 | In every interleaving a broadcast under way can finish by its own steps, whatever subscribers do |
| SseHubOrder.SwappedOverlapped | irmik/sse/hub.go:42-51 | A channel accepts two calls in the order in which they got the lock, unless they were under way together |
| SseHubOrder.OverlapSwaps | irmik/sse/hub.go:42-51 | Two calls under way together can reach a channel with room for both in either order |
| SseHub.OrdersMayDiffer | irmik/sse/hub.go:42-51 | Two concurrent broadcasts may reach two subscribers in opposite orders |
| Queue.Memory.AdmitJob | irmik/queue/queue.go:121-136 | The locked part of Enqueue: refused when closed, counted when delayed |
| Queue.Memory.ShutDown | irmik/queue/queue.go:189-198 | The locked part of Close: closes once |
| Queue.SentIsTakenThenBuffered | irmik/queue/queue.go:121-185 | In every interleaving the jobs sent are, in order, those taken followed by those buffered; the buffer is bounded and no Enqueue sends twice |
| Queue.NoJobIsEarly | irmik/queue/queue.go:127-150 | In every interleaving no job is put on the channel before its time |
| Queue.DueJobIsSentAtOnce | irmik/queue/queue.go:121-136 | In every interleaving an Enqueue of a job that has no time or is due never returns Accepted before that call has put it on the channel |
| Queue.FutureJobWaits | irmik/queue/queue.go:127-150 | An Enqueue of a job for later returns Accepted at once, with nothing sent, and a thread waits whose timer fires from the job's time on |
| Queue.DelayedJobCanArrive | irmik/queue/queue.go:138-162 | A delayed job can always still be put on the channel |
| Queue.NoDelayedSenderAfterClose | irmik/queue/queue.go:138-200 | Once the closing Close has returned no delayed sender is alive |
| Queue.LateEnqueueIsRefused | irmik/queue/queue.go:121-126 | In every interleaving an Enqueue called after closing returns ErrClosed and never sends |
| Queue.CancelledIff | irmik/queue/queue.go:138-162 | An Enqueue gives up for its context only if that was cancelled, and once it was, a thread waiting in a select can leave it |
| Queue.NobodyStuckAfterQuit | irmik/queue/queue.go:138-200 | After quit every thread inside an operation can take a step, except a closer waiting for delayed senders that can |
| Queue.CloseCanComplete | irmik/queue/queue.go:189-200 | A Close under way can complete by steps of delayed senders alone |
| Queue.PushAfterCloseReturned | irmik/queue/queue.go:134-135 | An Enqueue that passed its check before Close can put its job on the channel after Close has returned |
| Queue.SendsAfterCloseIff | irmik/queue/queue.go:121-200 | Once the closing Close has returned, something can still be put on the channel if and only if an Enqueue past its check has not finished sending |
| Queue.SecondCloseDoesNotWait | irmik/queue/queue.go:190-194 | A second Close returns while a delayed sender is alive |
| Queue.ReturnsEarlyIff | irmik/queue/queue.go:189-200 | In every run a call of Close, closing or not, returns while a delayed sender is alive if and only if another Close was waiting for one when this one took the lock |
| Session.CloneMap | irmik/session/memory.go:49-64 | A copy: a new map with the same entries |
| Session.MemoryStore.Get | irmik/session/memory.go:19-31 | Copies of what is stored; an expired session is deleted |
| Session.MemoryStore.Save | irmik/session/memory.go:33-38 | The store keeps copies of its own, never the caller's maps |
| Session.RequestSession.Fill | irmik/session/session.go:76-104 | The session a request starts with: the stored values, the readable flash, and unsaved whenever flash was read |
| Session.RequestSession.SetFlash | irmik/session/session.go:158-166 | Pending for the next request, nothing else changes |
| Session.RequestSession.PopFlash | irmik/session/session.go:169-177 | Answers and removes a readable message without marking the session unsaved |
| Session.RequestSession.Persist | irmik/session/session.go:236-273 | Stores values and pending flash under the id, a fresh one if there is none, sets the cookie and empties the pending flash |
| Session.RequestSession.Regenerate | irmik/session/session.go:195-208 | Deletes the old id and saves under a fresh one |
| Session.RequestSession.Destroy | irmik/session/session.go:211-234 | Empties the session, deletes it from the store and clears the cookie |
| Session.RequestSession.End | irmik/session/session.go:46-55 | The middleware saves exactly when something is unsaved |
| Session.HandlerMutation | irmik/session/memory.go:33-64 | Writing straight into the maps a handler can reach leaves the store as it was |
| Session.RequestsAreIsolated | irmik/session/memory.go:19-31 | Two requests on one session do not see each other's unsaved changes |
| SessionLife.FlashIsOneShot | irmik/session/session.go:97-101 | Whatever a request does, the next one reads only flash messages set in it: each is readable in at most one request |
| SessionLife.FlashReadableIffSavedOnce | irmik/session/session.go:158-273 | A message left alone in its request is readable in the next exactly when the session is saved exactly once after it |
| SessionLife.SavedTwiceLosesFlash | irmik/session/session.go:158-273 | A handler that sets a message, saves and then sets a value loses the message |
| SessionLife.RegenerateMoves | irmik/session/session.go:195-208 | After Regenerate the old id is unknown, the values live under the fresh id, and no other session has changed |
| SessionLife.NextRequestFinds | irmik/session/session.go:76-104 | What a request leaves unsaved at its end is what the next one finds up to the lifetime from then: each value last written over what was there; after that a new session begins |
| SessionLife.ReadableUntilTaken | irmik/session/session.go:158-187 | A message from the request before is readable until popped, or until the session is cleared or destroyed |
| SessionLife.LookingWritesNothing | irmik/session/session.go:76-104 | A request with no message to read that only looks at its session stores nothing and sets no cookie |
| SessionLife.DestroyedIsGone | irmik/session/session.go:211-234 | Destroying a session last leaves nothing of it in the store and clears the cookie; other sessions are as they were |
| SessionRace.OldIdReturnsIff | irmik/session/session.go:195-273 | With a second request in flight under the old id, that id is back in the store at its end if and only if it had something to save and did not itself regenerate or destroy the session |
| SessionRace.TwoLoadsMove | irmik/session/session.go:76-104 | Two requests load one session and the first regenerates it: the situation the condition is about is reached from any stored session |
| SessionRace.OldIdReturns | irmik/session/session.go:139-273 | One value set by the other request then brings the old id back, with the old values and that one |
| Resize.NewSize | irmik/imagex/imagex.go:92-106 | The two dependent assignments compute the specified size |
| Resize.FitKeepsAspect | irmik/imagex/imagex.go:92-113 | Within every positive limit, never larger than the original, the original exactly when it fits and at one of the limits otherwise, and -h < nw*h - nh*w < w even when both steps truncate |
| Resize.FlatImagesVanish | irmik/imagex/imagex.go:99-106 | The height becomes zero exactly when the image is too flat for the width limit, the width exactly when it is too narrow for the height limit; both sides are positive exactly when it is neither |
| Resize.VanishingImages | irmik/imagex/imagex.go:99-106 | A flat and a narrow image whose new size has a zero side |
| VariantCache.Cache.Get | irmik/imagex/pipeline.go:372-392 | Undisturbed: the body in memory, else the one on disk, which is then remembered |
| VariantCache.Cache.Set | irmik/imagex/pipeline.go:394-407 | Remembers the body and stores it on disk if there is one |
| VariantCache.Cache.RememberLocked | irmik/imagex/pipeline.go:409-419 | Replaces in place, or evicts the oldest of sixty-four and queues the key last |
| VariantCache.AlwaysValid | irmik/imagex/pipeline.go:409-419 | After any puts the order list is duplicate-free, holds exactly the keys in memory, and never more than sixty-four |
| VariantCache.StandsAll | irmik/imagex/pipeline.go:409-419 | Where a key not put again stands: forward one place for each first-time insertion beyond the room |
| VariantCache.SurvivesSixtyThree | irmik/imagex/pipeline.go:409-419 | A key survives exactly while at most 63 first-time insertions follow, and is then answered with its body |
| VariantCache.HoldsLastPut | irmik/imagex/pipeline.go:409-419 | What memory holds under a key is the body last remembered for it |
| VariantCache.GetAnswersLastSet | irmik/imagex/pipeline.go:372-419 | For gets and sets that do not overlap: with a directory get answers the body last set, evicted or not, else what the directory held before; without one the body last set or nothing |
| VariantRace.AloneIsGet | irmik/imagex/pipeline.go:372-392 | The three steps of a get, undisturbed, are the one-instant get |
| VariantRace.AloneIsSet | irmik/imagex/pipeline.go:394-407 | The two steps of a set, undisturbed, are the one-instant set |
| VariantRace.AlwaysAnswersIff | irmik/imagex/pipeline.go:372-419 | In every interleaving and at any moment, all gets from then on answer a body until the key is set again if and only if the directory has it, memory has no other, and neither a get nor a set under way holds another |
| VariantRace.SetAloneIsAnswered | irmik/imagex/pipeline.go:394-407 | A set that overlaps neither another set of its key nor a get that holds its file is answered from then on |
| VariantRace.OldBodyReturns | irmik/imagex/pipeline.go:384-391 | A get that read the old file before a set and remembers it after brings the old body back |
| VariantRace.SetsDisagree | irmik/imagex/pipeline.go:394-407 | Two sets at once can leave one body in memory and the other in the directory, and then no body is the answer from then on |
| VariantRace.MemoryStaysValid | irmik/imagex/pipeline.go:372-419 | In every interleaving memory and its order list agree and stay within sixty-four |
| VariantCache.VariantKeyInjective | irmik/imagex/pipeline.go:357-359 | Different variants have different keys, whatever the source path holds, as long as formats hold no bar |
| Inject.BodyWriter.Write | irmik/devtools/inject.go:26-43 | Buffers, or passes on everything so far and gives up buffering; only the first header reaches the client |
| Inject.BodyWriter.Finish | irmik/devtools/inject.go:91-121 | Sends the finished body unless buffering was given up |
| Inject.InjectRestores | irmik/devtools/inject.go:128-142 | Under any lower-casing, injection succeeds exactly when the end tag found is not past the body, and deleting the tag gives the body back |
| Inject.InjectBeforeLastEndTag | irmik/devtools/inject.go:128-142 | In ASCII text the tag goes right before the last end tag in any mix of cases, or at the end |
| Inject.EndTagLetters | irmik/devtools/inject.go:130-131 | An end tag in any mix of cases is one letter by letter |
| Lowering.Separates | irmik/devtools/inject.go:130-130 | Text cut into UTF-8 runes can be cut before any ASCII byte and its sides lower-cased on their own |
| Lowering.FirstRuneIff | irmik/devtools/inject.go:130-130 | The first rune of a text is the UTF-8 encoding (section 3 of RFC 3629) it begins with, and a single byte if it begins with none |
| InjectPlaces.FoundPosition | irmik/devtools/inject.go:130-131 | For every body, the position found is the length of the lower case of what comes before the last end tag |
| InjectPlaces.PlacedIff | irmik/devtools/inject.go:128-142 | For every body without the tag: the tag goes to the end if there is no end tag; else injection panics exactly when what comes before the last end tag is longer than the body once lower-cased, and places the tag right before it exactly when lower-casing keeps that length |
| InjectPlaces.TagInsideParagraph | irmik/devtools/inject.go:128-142 | After a capital dotted I the tag is put inside the end tag of the paragraph |
| InjectPlaces.LettersPanic | irmik/devtools/inject.go:128-142 | Letters whose lower case is a byte longer make injection panic exactly from eight on |
| Inject.InjectOnce | irmik/devtools/inject.go:106-117 | A body already given the tag is passed on unchanged |
| Inject.NothingLostOrRepeated | irmik/devtools/inject.go:26-43 | After any writes the bytes passed on followed by those buffered are the bytes written |
| Inject.SkippedIffLarge | irmik/devtools/inject.go:31-41 | Buffering is given up exactly when the whole body exceeds four megabytes, however it is cut up |
| Inject.ClientReceivesBody | irmik/devtools/inject.go:76-122 | However writes are cut up, the client receives the whole body unchanged when it is large or not to be touched, else the body with the tag inserted |
| Inject.OverlayIff | irmik/devtools/inject.go:76-122 | A response gets the overlay exactly when it is small, has none yet, is neither an event stream nor JSON, and is a page or a plain error shown to a reader of pages; every other one is sent as written |
| EntryAssets.BoundedIffAcyclic | irmik/island/manifest.go:142-160 | The recursion is bounded exactly when no import cycle can be reached, and then by the number of chunks |
| EntryAssets.SelfImportIsUnbounded | irmik/island/manifest.go:142-160 | A chunk that imports itself makes the recursion unbounded |
| EntryAssets.Collector.Collect | irmik/island/manifest.go:142-159 | The recursive walk adds exactly the sheets of the specified traversal, each once |
| EntryAssets.Lookup | irmik/island/manifest.go:92-128 | The exact key, else the first existing candidate, else any chunk whose key's or source's stem or whose name is the name up to case, else nothing |
| EntryAssets.StemOf | irmik/island/manifest.go:111-119 | A file's stem, in any directory, is its name up to the last dot |
| EntryAssets.StemOfPlain | irmik/island/manifest.go:111-119 | A file without an extension is its own stem |
| EntryAssets.BaseOf | irmik/island/manifest.go:111-119 | The base name is the last element, slashes at the end aside; slashes only give a slash, nothing a dot |
| EntryAssets.LooseIff | irmik/island/manifest.go:110-126 | A chunk goes by a name exactly when that is, up to case, the stem of its key's file, of its source's if it has one, or its own name if it has one |
| EntryAssets.FoundByFileName | irmik/island/manifest.go:99-128 | A name is found whenever some file of the manifest, in any directory and with any extension, goes by it |
| EntryAssets.Resolve | irmik/island/manifest.go:133-162 | An unknown entry or one without a file is an error; any other gives its file and style sheets |
| EntryAssets.ListedOnceInOrder | irmik/island/manifest.go:144-153 | The list has each non-empty href once, in the order of first meeting |
| EntryAssets.LinkedIffReachable | irmik/island/manifest.go:133-162 | The sheets are exactly the non-empty ones of chunks reached through imports, without duplicates |
| EntryAssets.SheetsFollowImports | irmik/island/manifest.go:142-160 | The entry's own sheets come before all others, and those reached through earlier imports before those reached only through later ones |
| EntryAssets.PrefersFirstExtension | irmik/island/manifest.go:99-110 | A name that is no key finds the first of .tsx, .jsx, .ts and .js there is, under islands before elsewhere |
| Base64.DecodeUndoesEncode | irmik/auth/password.go:74-75 | Unpadded base64 (section 4 of RFC 4648, padding dropped per section 3.2) decodes to the bytes encoded |
| Base64.DecodesIff | irmik/auth/password.go:109-116 | Line breaks aside, exactly texts of the alphabet whose length is not one more than a multiple of four decode, to three quarters of their length |
| Base64.RfcExamples | irmik/auth/password.go:74-75 | The examples of section 10 of RFC 4648 |
| Password.ScanParamsOfParams | irmik/auth/password.go:106-108 | Scanning the printed parameters gives them back, for all 32-bit and 8-bit values |
| Password.ReadUndoesPrint | irmik/auth/password.go:72-116 | Splitting, decimal parameters and base64 all undo their printers |
| Password.TextsDiffer | irmik/auth/password.go:72-76 | Equal texts come from equal parameters, salts and keys |
| Password.AcceptsIffSameKey | irmik/auth/password.go:57-122 | Under Argon2id, with any options and salt, hashing succeeds and the text then accepts exactly the passwords that derive the same key, without a panic |
| Password.OwnPasswordIsAccepted | irmik/auth/password.go:57-95 | Whatever the options, a hash that is made accepts its own password; it is made unless bcrypt refuses, randomness fails or the algorithm is unknown |
| Password.AcceptsIff | irmik/auth/password.go:84-122 | Any text accepts a password exactly when it is a bcrypt hash that matches it, with or without the prefix, or an Argon2id text whose key is derived from it |
| Password.BcryptAcceptsIff | irmik/auth/password.go:60-94 | A bcrypt hash, made at the cost asked for, accepts exactly the passwords the library matches with it |
| Password.HashKeepsOptions | irmik/auth/password.go:33-83 | The text of an Argon2id hash names the options asked for, each with its default for zero |
| Password.CheckPanicsIff | irmik/auth/password.go:84-122 | Checking panics, whatever the password, exactly on Argon2id texts that read back with no pass, no thread or a key of length zero in 32 bits; no other text makes it panic |
| Password.NoPassesPanics | irmik/auth/password.go:97-122 | The text of zero passes, whatever else it holds, makes checking panic |
| Strings.SplitUndoesJoin | irmik/auth/password.go:99-99 | Cutting at the separator gives back pieces that hold none |
| Strings.WhiteSpaceIs | irmik/cache/key.go:14-22 | White space is the twenty-five characters Unicode calls so |
| Decimals.DecimalIsNumber | irmik/sse/sse.go:227-229 | A decimal number as printed is digits only and reads back as the number |
| Decimals.NoLeadingZero | irmik/sse/sse.go:227-229 | A printed number begins with zero only if it is zero |
| RateLimit.TokenBucket.Take | irmik/middleware/ratelimit.go:126-136 | A known bucket: refill, cap, then spend a token if there is one |
| Inject.BodyWriter.WriteHeader | irmik/devtools/inject.go:21-24 | Records the status; nothing is sent yet |
| Inject.BodyWriter.FlushHeader | irmik/devtools/inject.go:67-73 | Sends the recorded status, 200 when it is zero, unless one was sent before |
| Session.RequestSession.Set | irmik/session/session.go:139-147 | Changes one value and marks the session unsaved |
| Session.RequestSession.DeleteKey | irmik/session/session.go:150-155 | Removes one value and marks the session unsaved |
| Session.RequestSession.Clear | irmik/session/session.go:180-187 | Empties values and both flash maps and marks the session unsaved |
| Session.MemoryStore.Delete | irmik/session/memory.go:40-45 | Removes exactly one session |
| IsrStore.MemoryStore.Delete | irmik/cache/memory.go:39-44 | Removes exactly one entry |
| IsrStore.MemoryStore.Clear | irmik/cache/memory.go:46-51 | Removes every entry |
| Queue.Memory.Send | irmik/queue/queue.go:152-162 | With room, puts the job last |
| Queue.Memory.Receive | irmik/queue/queue.go:168-178 | Takes the oldest job |
| Queue.Memory.Done | irmik/queue/queue.go:139-139 | One delayed sender fewer |
| Sse.Stream.Close | irmik/sse/sse.go:98-106 | Closes, once or again, and writes nothing |
| Sse.WriteData | irmik/sse/sse.go:237-241 | The loop over the lines appends one data field per line, in order |
| EntryAssets.Collector.Link | irmik/island/manifest.go:144-153 | The loop adds each new non-empty href in order |

## Left out

- RateLimit.TokenLimiter.Allow: tokens and times are real numbers, so rounding is not modelled; the clock is a parameter, read in lock order in the laws.
- RateLimit.CollectorInvisibleIff: rates that are not positive are replaced before a limiter is built, so rps > 0.
- Refresh.ConsumeIff: clock readings are nondecreasing in lock order; wall-clock jumps are not modelled.
- Rotation.Authenticator.Refresh: signing and parsing of JWTs are replaced by the claims verification yields; access tokens are not modelled.
- RenderCache.CacheAgreesWithFreshCompile: a compile is a record of what it was made from, and which sources compile is a parameter; the 64-bit generation counter does not wrap.
- RenderEngine.Engine.Render: no interference between its lookups; under interference page and layouts may come from different generations, each as `RenderCache.AnswersAreOfOneEra` says.
- RenderEngine.Engine.Reload: the walk over the partials directory is one reading, and a writer that fails is not modelled.
- WsHub.SafePlay: `Client.Send` from the application, the connection's own closing and the ping timers are not modelled; a message is text.
- WsHub.ServeHTTPNeverPanics: safety only; `WsLeaving.StaysIff` says which clients are never removed.
- IsrStore.MemoryStore.Get: content types, contexts and the disk and Redis stores are not modelled.
- Isr.ServedPagesAreGenuine: ages are counted from the stamp, which is taken when rendering ends (`IsrForgets.GoesBackIff`). Stores that fail and routes without a cache are not modelled.
- CacheKey.SameKeyIff: upper-casing is of ASCII letters; methods with other letters are not modelled.
- writeCachedHTML: entity tags and 304 replies are not modelled.
- Sse.ParseUndoesPrint: text is characters, without UTF-8 encoding; for data without carriage returns. A write that fails is not modelled.
- Sse.Stream.Write: the heartbeat goroutine is any interleaving of comments; cancelling the context is the closed flag.
- SseHub.EveryRunDelivers: `Attach` is a subscriber like any other and has no steps of its own.
- Queue.NobodyStuckAfterQuit: that a step can be taken, not that the scheduler takes it; handlers are not modelled and a worker taking a job is one step.
- Session.MemoryStore.Get: values are text and maps are never nil; nested data inside values would be shared, since only the maps are copied. A zero expiry is not modelled.
- Session.RequestSession.Persist: the store and the random source do not fail; cookie attributes are not modelled.
- SessionLife.FlashIsOneShot: one client with one request at a time that keeps the last cookie it was sent; of two requests at once only `SessionRace` speaks.
- Resize.NewSize: integers are unbounded, so the products do not overflow; scaling of pixels is not modelled.
- VariantCache.Cache.Get: undisturbed; `VariantRace` has its steps one by one. Bodies are values, so the copying of buffers is not modelled, and the hashed file name stands for the key.
- VariantRace.AlwaysAnswersIff: reading and writing a file are one step each, and writing does not fail.
- Inject.InjectBeforeLastEndTag: for ASCII text; `InjectPlaces.PlacedIff` covers every body.
- InjectPlaces.PlacedIff: the table of lower cases is a parameter, of which it is used that no rune outside ASCII becomes nothing or a byte of the end tag, as in Unicode; bodies that hold the tag already are passed on before injection.
- Inject.BodyWriter.Write: writes below do not fail; hijacking and flushing of the response, HEAD requests and the overlay's own paths, which bypass the writer, are not modelled.
- EntryAssets.Resolve: no import cycle can be reached from the entry, without which the recursion has no end.
- EntryAssets.Lookup: equality up to case is a parameter, and paths are those of a slash-separated system.
- Password.AcceptsIffSameKey: the key derivation is any function that yields as many bytes as asked from at least one pass, one thread and one byte; comparison in constant time is equality.
- Password.CheckPanicsIff: the key derivation panics exactly when asked for no pass, no thread or no byte; its own code is not part of this model.
- Password.OwnPasswordIsAccepted: bcrypt is a pair of functions that accept their own hashes.
- `collectLayouts`, `FilePathToGin`, static and server-rendered routes, `fallbackWidth`: loops or branches that one reading settles.
- Gin, HTTP headers, CORS, health, audit, plugin hooks, validation, pagination, SEO, CLI and the browser side: plumbing or one-branch members.
- Disk, Redis, S3, SQL, SMTP, gRPC and telemetry backends: library behaviour outside this repository.
