# Chat presence and practice-zone ledger, modelled in Dafny

This project models four parts of a chat application's Node.js server and
proves properties about them:

- **The real-time core** (`server/socket.js`). The server keeps three
  in-memory maps: each user's current socket (`userSocketMap`), when each
  user's handshake was admitted (`connectionTimestamps`) and each user's
  fixed-window send counter (`messageCounters`). The model covers the rate
  limiter, the admission middleware, the connection handler (session
  takeover), the disconnect handler, the stale sweep (run every five
  minutes, it is meant to evict users admitted more than an hour earlier;
  see Findings), direct and
  channel message dispatch, and new-channel notification. Each handler is
  a pure transition over a `Registry` value, and the lemmas are proved about
  those transitions. The class `SocketServer` holds the three maps as fields.
  Its methods update them in place and are proved to perform exactly those
  transitions. Everything the server sends (`emit`, forced `disconnect`) is
  returned as an ordered list of emissions.
- **The portfolio document** (`model/PracticeZoneModel.js`). This is the
  schema's defaults and bounds, plus the two valuation methods
  (`calculatePortfolioValue` and the `absoluteReturn` of `calculateReturns`)
  as folds over the holdings.
- **The trading controller** (`controllers/PracticeZoneController.js`).
  This covers `initializePortfolio`, `buyStock`, `sellStock` and
  `getPortfolioStats`. Pure functions state what each handler does to a
  portfolio. The methods update the found document (`Portfolio?`, null when
  `findOne` finds nothing) field by field and are proved to follow them.
- **The request gates** (`middlewares/AuthMiddleware.js`). `verifyToken`
  takes the JWT check as a function parameter. `checkRole` decides on role
  membership.

Files: `wrappers.dfy` (Option), `socket.dfy` (module `Socket`),
`practice_zone_model.dfy` (module `PracticeZoneModel`),
`practice_zone_controller.dfy` (module `PracticeZoneController`),
`auth_middleware.dfy` (module `AuthMiddleware`).

Modelling choices:
- Time is a parameter `now`, in milliseconds.
- The message and channel stores are abstracted. The ghost sequence
  `created` logs the messages handed to the store. The channel lookup's
  answer is an `Option<Channel>` input.
- A socket id is a non-empty string. Socket.IO never issues an empty id, so
  a lookup that finds a socket is always truthy.
- Money is `real`. Share counts are `int`.
- JavaScript truthiness is written out. An absent or empty string is falsy,
  and so are a 0 quantity and a 0 price.

The model follows the code in these behaviours:
- A refused rate-limit call does not increment the counter.
- A rate window resets only when strictly more than 60000 ms have passed.
- A takeover emits `session-expired` to the old socket but does not close it.
- `ping` answers `pong` and refreshes no timestamp, so the sweep measures
  age from the handshake.
- `sendChannelMessage` stores the message before it looks up the channel. An
  unknown channel is reported through the error handler, and the message
  stays stored.
- The channel admin is delivered to separately from the members, with no
  de-duplication. An online admin who is also a member receives the message
  twice.

## Model

| member | source | states |
|---|---|---|
| Socket.RateLimit | server/socket.js:29-45 | With no counter, or with a window more than 60000 ms old, the call is allowed and leaves `{count: 1, timestamp: now}`. Inside the window it is allowed iff count < 30, and an allowed call adds one while keeping the window start. A refused call changes no counter. Counts stay within 1..30. |
| Socket.WindowBudget | server/socket.js:33-44 | Within one window, a user whose counter is at c is granted exactly the next 30 - c calls and refused every later one. |
| Socket.ThirtyFirstCallRefused | server/socket.js:25-44 | A user without a counter who calls 31 times within a minute of the first call gets the first 30 allowed and the 31st refused. |
| Socket.SocketServer.CheckRateLimit | server/socket.js:29-45 | Updates `messageCounters` in place exactly as RateLimit decides, and keeps every count in 1..30. |
| Socket.Admitted | server/socket.js:197-207 | A handshake is refused iff its userId is absent or empty. An admitted one stamps `connectionTimestamps[userId] = now` and changes nothing else. |
| Socket.SocketServer.Admit | server/socket.js:197-207 | Admits iff the userId is truthy. It then performs the Admitted update; a refused handshake changes no map. |
| Socket.Connected | server/socket.js:209-224 | The user is remapped to the new socket and every other entry is unchanged. Exactly the previously mapped socket gets `session-expired`, and only if it differs from the new one. The other two maps are untouched. |
| Socket.ConnectKeepsRegistryValid | server/socket.js:209-224 | Connecting on a socket that no other user holds keeps one user per socket. |
| Socket.SocketServer.Connect | server/socket.js:209-224 | Updates `userSocketMap` in place as Connected and returns its notices. |
| Socket.Disconnected | server/socket.js:179-194 | The users whose current socket is the disconnecting one leave all three maps, and nobody else does. Afterwards no user maps to that socket. |
| Socket.DisconnectCurrentSocket | server/socket.js:179-190 | Disconnecting a user's current socket removes exactly that user from the three maps. |
| Socket.DisconnectUnknownSocket | server/socket.js:182-190 | Disconnecting a socket that no user holds changes nothing. |
| Socket.SupersededDisconnectIsNoop | server/socket.js:179-224 | After a takeover, the old socket's disconnect leaves the registry as it is, with the user still on the new socket. |
| Socket.SocketServer.Disconnect | server/socket.js:179-194 | Updates the three maps in place as Disconnected and keeps the registry invariant. |
| Socket.Stale | server/socket.js:246 | The stale users are stamped users, and a stamped user is stale iff its stamp is more than 3600000 ms before `now`. |
| Socket.Swept | server/socket.js:243-256 | Exactly the users stamped more than 3600000 ms before `now` leave all three maps. Users at or under the hour keep their socket, stamp and counter unchanged, and no map gains a key. |
| Socket.SweptAsWritten | server/socket.js:243-256 | The sweep as written, over the users in insertion order, stopping on the error that `io.to(socketId).disconnect` throws (see Findings). No stale user who still has a socket ever leaves `userSocketMap` or `connectionTimestamps`. A run that completes visited no stale user with a socket. |
| Socket.SweptAsWrittenAborts | server/socket.js:245-250 | The sweep as written throws iff the visited users include a stale user who still has a socket. |
| Socket.SweptAsWrittenRemoves | server/socket.js:245-254 | A run of the sweep as written that does not throw has removed exactly the stale users it visited from the three maps, and changed nothing else. |
| Socket.SweptAsWrittenCompletes | server/socket.js:243-256 | When the visit order lists every stamped user, a run that does not throw leaves the same maps as Swept, so the throw is the only difference between the two. |
| Socket.SweptAsWrittenKeepsStaleUser | server/socket.js:246-253 | For one user stamped at 0 on socket "s1" at `now` = 3600001, the sweep as written stops and changes nothing, while Swept evicts that user. |
| Socket.SweepIdempotent | server/socket.js:243-256 | A second sweep at the same instant removes nothing and closes no socket. |
| Socket.SweepKeepsRegistryValid | server/socket.js:243-256 | The sweep keeps one user per socket and counts within 1..30. |
| Socket.SocketServer.Sweep | server/socket.js:243-256 | The loop leaves the maps equal to Swept. It force-disconnects each socket of a stale user exactly once, and no other socket. |
| Socket.FanOut | server/socket.js:156-163 | At most one emission per listed user, each carrying the event to a mapped socket. FanOutReaches, FanOutAllPresent and FanOutDeliveriesTo pin which sockets are reached and how often. |
| Socket.FanOutReaches | server/socket.js:156-163 | A socket receives the fan-out iff some listed user is mapped to it. |
| Socket.FanOutAllPresent | server/socket.js:156-163 | When every listed user is online, the k-th emission goes to the k-th user's socket. |
| Socket.FanOutDeliveriesTo | server/socket.js:156-163 | With one socket per user, an online user's socket receives one emission per occurrence of the user in the list. |
| Socket.SocketServer.FanOutTo | server/socket.js:156-163 | The `forEach` loop emits exactly FanOut over the current socket map. |
| Socket.DirectDeliveries | server/socket.js:83-107 | A direct message goes to the recipient's socket if online and to the sender's socket if online, and nowhere else. |
| Socket.DirectSend | server/socket.js:74-113 | A rate-limited send emits only the rate-limit error to the sending socket, creates no message and changes no counter. Otherwise it stores the message and delivers it as DirectDeliveries. |
| Socket.SocketServer.SendMessage | server/socket.js:74-113 | Performs DirectSend in place: counters, the store log and the emissions. |
| Socket.StoredChannelMessage | server/socket.js:124-133 | The stored channel message has no recipient and is stamped `now`, and it keeps the sender, content, type and file URL of the event. |
| Socket.ChannelDeliveries | server/socket.js:153-171 | Every delivery carries the channel message to a socket of an online user, and there are at most one per member plus one for the admin. |
| Socket.ChannelDeliveriesTo | server/socket.js:153-171 | An online user's socket receives one copy per membership, plus one if the user is the admin. |
| Socket.AdminMemberReceivesTwice | server/socket.js:155-171 | An online admin listed once as a member receives the channel message twice. |
| Socket.ChannelFanOutComplete | server/socket.js:153-171 | With all members and the admin online, there is one delivery per member plus one for the admin. |
| Socket.ChannelSend | server/socket.js:115-177 | A rate-limited send emits only the error and stores nothing. Otherwise the message (no recipient, stamped `now`) is stored. Then an unknown channel yields the `sendChannelMessage` error to the sender, and a found channel yields the member and admin deliveries. |
| Socket.SocketServer.SendChannelMessage | server/socket.js:115-177 | Performs ChannelSend in place. |
| Socket.ChannelNotify | server/socket.js:57-72 | No channel means no emission. Otherwise every emission is `new-channel-added` for that channel. |
| Socket.ChannelNotifyReaches | server/socket.js:57-72 | A new channel reaches exactly the sockets of its online members. |
| Socket.SocketServer.AddChannelNotify | server/socket.js:57-72 | Emits exactly ChannelNotify over the current socket map. |
| Socket.TakeoverScenario | server/socket.js:179-224 | Connecting a user on a second socket tells only the first socket `session-expired` and maps the user to the second. The first socket's later disconnect then removes nobody. |
| Socket.SocketServer.Ping | server/socket.js:233-235 | Answers `pong` to the calling socket only and changes no state. |
| Socket.SocketServer.constructor | server/socket.js:20-26 | The three maps start empty. |
| PracticeZoneModel.ToUpper | model/PracticeZoneModel.js:15-19 | Upper-casing keeps the length, leaves no lower-case ASCII letter, and leaves upper-case codes unchanged. |
| PracticeZoneModel.NewPortfolio | model/PracticeZoneModel.js:9-56 | The default portfolio has balance 10000, no stocks and no transactions, and satisfies the schema bounds. |
| PracticeZoneModel.Portfolio.constructor | controllers/PracticeZoneController.js:12-17 | A created document holds the default portfolio. |
| PracticeZoneModel.ValidPortfolio | model/PracticeZoneModel.js:9-56 | The schema bounds: balance at least 0; every holding with a non-empty upper-case code, quantity at least 0 and average price at least 0; one holding per code, which the buy and sell handlers keep (the schema does not enforce it); every transaction with a non-empty upper-case code, quantity at least 1 and price at least 0. A predicate; the controller lemmas prove it kept. |
| PracticeZoneModel.Invested | model/PracticeZoneModel.js:84-86 | The `reduce` of quantity * avgPrice over the holdings. A definition; its meaning is stated by InvestedAppend, InvestedUpdate and InvestedNonNegative. |
| PracticeZoneModel.PriceOf | model/PracticeZoneModel.js:76 | The current price when it is present and non-zero, otherwise the average price, as the logical or does. A definition; ZeroPriceIgnored states what happens with a 0 price. |
| PracticeZoneModel.StocksValue | model/PracticeZoneModel.js:75-78 | The `reduce` of quantity times PriceOf over the holdings. A definition; ValueWithoutPricesIsInvested and StocksValueNonNegative state its properties. |
| PracticeZoneModel.PortfolioValue | model/PracticeZoneModel.js:74-80 | `calculatePortfolioValue`: StocksValue plus balance. A definition; ValueWithoutHoldings, ValueAtLeastBalance and StatsAgreeWithValuation state its properties. |
| PracticeZoneModel.AbsoluteReturn | model/PracticeZoneModel.js:82-88 | The `absoluteReturn` of `calculateReturns`: value less invested total. A definition; ValueWithoutHoldings and AbsoluteReturnWithoutPrices state its properties. |
| PracticeZoneModel.InvestedAppend | model/PracticeZoneModel.js:84-86 | Appending a holding adds its quantity times average price to the invested total. |
| PracticeZoneModel.InvestedUpdate | model/PracticeZoneModel.js:84-86 | Replacing one holding changes the invested total by the difference of the two costs. |
| PracticeZoneModel.InvestedNonNegative | model/PracticeZoneModel.js:84-86 | Under the schema bounds the invested total is at least 0. |
| PracticeZoneModel.ValueWithoutPricesIsInvested | model/PracticeZoneModel.js:74-80 | With no current prices, the stocks are valued at their invested total. |
| PracticeZoneModel.ZeroPriceIgnored | model/PracticeZoneModel.js:76 | Because of `||`, a current price of 0 values a holding exactly as a missing price does. |
| PracticeZoneModel.ValueWithoutHoldings | model/PracticeZoneModel.js:74-88 | With no holdings, value and absolute return both equal the balance, whatever the prices. |
| PracticeZoneModel.AbsoluteReturnWithoutPrices | model/PracticeZoneModel.js:82-88 | With empty current prices, the absolute return equals the balance. |
| PracticeZoneModel.ValueAtLeastBalance | model/PracticeZoneModel.js:74-80 | With non-negative prices, a schema-valid portfolio is worth at least its balance, which is at least 0. |
| PracticeZoneModel.StocksValueNonNegative | model/PracticeZoneModel.js:75-78 | With non-negative prices, schema-valid holdings have a non-negative value. |
| PracticeZoneController.Validate | controllers/PracticeZoneController.js:47-53 | "Missing required fields" iff a field is absent, empty or 0. "Invalid quantity or price" iff all fields are present and one is negative. Validation passes iff all three are present and positive. |
| PracticeZoneController.IndexOf | controllers/PracticeZoneController.js:68 | Returns the first holding with the code, or -1 when no holding has it. |
| PracticeZoneController.WithoutCode | controllers/PracticeZoneController.js:134 | No holding with the code survives the filter. |
| PracticeZoneController.WithoutCodeCounts | controllers/PracticeZoneController.js:134 | The filter keeps every other holding as often as it occurred. |
| PracticeZoneController.WithoutAbsentCode | controllers/PracticeZoneController.js:134 | Filtering out a code that no holding has changes nothing. |
| PracticeZoneController.WithoutCodeKeepsUnique | controllers/PracticeZoneController.js:134 | The filter keeps one holding per code. |
| PracticeZoneController.WithoutHeldCode | controllers/PracticeZoneController.js:122-135 | With one holding per code, filtering out a held code removes exactly that holding. |
| PracticeZoneController.WithoutHeldCodeInOrder | controllers/PracticeZoneController.js:134 | With one holding per code, filtering out a held code leaves the holdings before it followed by the holdings after it, in their order. |
| PracticeZoneController.WithoutHeldCodeInvested | controllers/PracticeZoneController.js:133-135 | Filtering out a held code takes its cost off the invested total. |
| PracticeZoneController.Merged | controllers/PracticeZoneController.js:70-76 | The merged holding keeps the code and holds the old quantity plus the bought one. Its price is stated by MergedMean. |
| PracticeZoneController.Bought | controllers/PracticeZoneController.js:67-83 | The holdings grow by at most one, every holding of another code keeps its place and value, and afterwards some holding has the bought code. |
| PracticeZoneController.BoughtValid | controllers/PracticeZoneController.js:67-83 | Buying a positive quantity of a non-empty upper-case code at a positive price keeps every holding within the schema bounds and one holding per code. |
| PracticeZoneController.BuyOutcome | controllers/PracticeZoneController.js:41-100 | `buyStock` on a found portfolio: the two input checks, then the balance check, then the update. A definition; BuyRefusals, BuyPaysAndLogs, BuyUpdatesHoldings, BuyKeepsValid and BuyKeepsBookValue state what it does. |
| PracticeZoneController.MergedMean | controllers/PracticeZoneController.js:70-76 | Buying more of a held code keeps the code and adds the quantity. The new average price times the new quantity equals the old cost plus price * quantity. |
| PracticeZoneController.BoughtInvested | controllers/PracticeZoneController.js:67-83 | Whether the holding is merged or appended, the invested total grows by exactly price * quantity. |
| PracticeZoneController.BuyRefusals | controllers/PracticeZoneController.js:41-65 | A refused buy leaves the portfolio unchanged. The refusals are the two input checks, then "Insufficient balance" iff balance < price * quantity. |
| PracticeZoneController.BuyPaysAndLogs | controllers/PracticeZoneController.js:61-93 | A successful buy debits exactly price * quantity, leaves the balance at least 0, and logs one BUY with the upper-cased code. |
| PracticeZoneController.BuyUpdatesHoldings | controllers/PracticeZoneController.js:67-83 | Buying a held code adds the quantity and sets the quantity-weighted mean price, with other holdings untouched. Buying a new code appends one holding at the bought price. |
| PracticeZoneController.BuyKeepsValid | controllers/PracticeZoneController.js:41-96 | A buy keeps the portfolio within the schema bounds and keeps one holding per code. |
| PracticeZoneController.BuyKeepsBookValue | controllers/PracticeZoneController.js:61-86 | A buy leaves balance plus invested total unchanged. |
| PracticeZoneController.Sold | controllers/PracticeZoneController.js:128-135 | The holdings never grow. A partial sale keeps the length and leaves the holding at its place with the same code and the quantity reduced. A full sale leaves no holding with that code. |
| PracticeZoneController.SellOutcome | controllers/PracticeZoneController.js:102-152 | `sellStock` on a found portfolio: the two input checks, then the holding check, then the update. A definition; SellRefusals, SellUpdates, SellKeepsValid and SellBookValue state what it does. |
| PracticeZoneController.SoldValid | controllers/PracticeZoneController.js:129-135 | Reducing or removing a holding keeps every holding within the schema bounds and keeps one holding per code. |
| PracticeZoneController.SellRefusals | controllers/PracticeZoneController.js:102-126 | A refused sell leaves the portfolio unchanged. After the input checks, "Insufficient stock quantity" is answered iff the code is not held or fewer shares are held than asked. |
| PracticeZoneController.SellUpdates | controllers/PracticeZoneController.js:122-145 | A successful sell credits price * quantity and logs one SELL. It reduces the holding in place, or, when it reaches 0, removes exactly that holding and keeps the others in their order. |
| PracticeZoneController.SellKeepsValid | controllers/PracticeZoneController.js:102-148 | A sell keeps the portfolio within the schema bounds and keeps one holding per code. |
| PracticeZoneController.SoldInvested | controllers/PracticeZoneController.js:128-135 | Selling q shares takes the cost of q shares at the average price off the invested total, whether the holding is reduced or removed. |
| PracticeZoneController.SellBookValue | controllers/PracticeZoneController.js:128-138 | A sell raises balance plus invested total by the sale amount, price * quantity, less what the sold shares cost at their average price. |
| PracticeZoneController.WithoutZeroedHolding | controllers/PracticeZoneController.js:129-135 | Zeroing the found holding in place before the filter does not change the filter's result. |
| PracticeZoneController.Initialized | controllers/PracticeZoneController.js:4-24 | An existing portfolio is returned unchanged. Otherwise the default one is created and stored. |
| PracticeZoneController.InitializeIdempotent | controllers/PracticeZoneController.js:4-24 | Initializing twice is the same as initializing once. |
| PracticeZoneController.InitializePortfolio | controllers/PracticeZoneController.js:4-24 | Returns the found document, or a fresh one holding the default portfolio. |
| PracticeZoneController.Stats | controllers/PracticeZoneController.js:164-181 | Reports the balance and the number of holdings. Total value is invested total plus balance. The latest transaction is the last one, or absent when there are none. |
| PracticeZoneController.GetPortfolioStats | controllers/PracticeZoneController.js:155-187 | 404 "Portfolio not found" iff there is no portfolio, otherwise the stats. |
| PracticeZoneController.StatsAgreeWithValuation | controllers/PracticeZoneController.js:164-181 | The stats' total value equals the portfolio value at average prices, and the invested total is at least 0. |
| PracticeZoneController.StatsAfterBuy | controllers/PracticeZoneController.js:164-181 | After a buy: total value is unchanged, the buy is the latest transaction, and there is one more stock iff the code was new. |
| PracticeZoneController.BuyStock | controllers/PracticeZoneController.js:41-100 | Answers the validation failures, then 404 without a portfolio. Otherwise it updates the document in place exactly as BuyOutcome and keeps it schema-valid. |
| PracticeZoneController.RecordBuy | controllers/PracticeZoneController.js:67-93 | The in-place update after the checks: the holdings become Bought of the old ones, the balance drops by price * quantity, and one BUY is appended. |
| PracticeZoneController.SellStock | controllers/PracticeZoneController.js:102-152 | Answers the validation failures, then 404 without a portfolio. Otherwise it updates the document in place exactly as SellOutcome and keeps it schema-valid. |
| AuthMiddleware.VerifyTokenGate | middlewares/AuthMiddleware.js:4-14 | No or empty cookie gives 401 "You are not authenticated!". A refused token gives 403 "Token is not valid!". The request is passed on iff a token is present and valid, and then carries the payload's userId and role. |
| AuthMiddleware.MissingTokenIgnoresVerifier | middlewares/AuthMiddleware.js:5-6 | Without a token the answer is 401 whatever the verifier would say, so the verifier is not consulted. |
| AuthMiddleware.VerifyTokenIgnoresPriorFields | middlewares/AuthMiddleware.js:8-13 | The decision, and on success the recorded fields, do not depend on what the request carried before. |
| AuthMiddleware.VerifyToken | middlewares/AuthMiddleware.js:4-14 | Writes `userId` and `userRole` on the request and returns the action exactly as VerifyTokenGate. |
| AuthMiddleware.CheckRole | middlewares/AuthMiddleware.js:17-26 | A missing or empty role gives 403 "Role not found!". The request is passed on iff the role is present and allowed. A present role that is not allowed gives 403 "You don't have permission to access this resource!". |
| AuthMiddleware.MissingRoleIgnoresAllowed | middlewares/AuthMiddleware.js:19 | Without a role the answer is "Role not found!" whatever roles are allowed. |
| AuthMiddleware.CheckRoleMonotone | middlewares/AuthMiddleware.js:20-24 | Allowing more roles never refuses a request that was passed on. |
| AuthMiddleware.GuardedReachesRoute | middlewares/AuthMiddleware.js:4-26 | Chaining the two gates passes a request on iff the token is present and valid and its payload carries an allowed, non-empty role. The role the request carried before plays no part. |

## Left out

- Socket.IO server configuration, the `handleError` logging and the error event's timestamp: transport detail. An error event is modelled as its context string only.
- The `setInterval` scheduling of the sweep: one sweep is one method call at a given `now`.
- `Promise.all` concurrency and interleavings at `await` points: each handler is one sequential transition, and fan-out is an ordered list of emissions.
- `Message.create`, `findById(...).populate(...)` and `Channel.findByIdAndUpdate`: the created message is logged as it is handed to the store, and the populated display fields and the channel's `messages` list are not modelled. Store failures, which the code reports through the error handler, are not modelled either.
- The stored message's `timestamp` for direct messages is whatever the client sent. For channel messages it is `now`.
- Socket.SocketServer.Sweep: leaves the order of the forced disconnects open. The JavaScript visits users in `Map` insertion order.
- Socket.SocketServer.Sweep: models the intended sweep, in which closing a stale user's socket returns normally. The Socket.IO version is not fixed by the modelled files; with the Socket.IO 4 API the call throws instead (see Findings and SweptAsWritten). Nothing in the modelled files catches an error escaping the `setInterval` callback, so Node ends the process and the three in-memory maps are lost; the model stops at the throw and does not model the process exit.
- Socket.SocketServer.Connect: requires that no other user already holds the connecting socket. Socket.IO issues a fresh id per connection, and this keeps the user-to-socket map injective.
- Socket.SocketServer.SendChannelMessage: requires that a found channel has the requested id, as the lookup by id guarantees.
- `disconnect` uses `find` over the map's entries in insertion order. Under the injectivity invariant at most one user matches, so the order does not matter.
- Member and admin ids are compared as strings: the `toString()` of database ids is not modelled.
- Floating point: money is a mathematical `real`, so rounding and `NaN` are not modelled. `percentageReturn` (a division by the invested total, which may be 0) is left out.
- Request bodies with string-typed, fractional or otherwise non-numeric quantities are not modelled. A quantity is an integer and a price a real.
- `toUpperCase` is modelled on ASCII letters only.
- Mongoose persistence: `findOne` is an input, `save` is the in-place update, and schema validation on save, plus the unique codes the handlers keep, is stated as the ValidPortfolio invariant. Database errors (status 500) are not modelled.
- The `pre('save')` timestamp hook, `createdAt`, `lastUpdated` and the transactions' `timestamp`: clock values with no logic.
- The `userId` field of the document is kept on the class, but ownership lookups by user are only modelled in `Initialized`.
- `getPortfolio` (a lookup that answers 404 or the document) and the `findUserPortfolio` static: no logic beyond what `GetPortfolioStats` and `InitializePortfolio` show.
- `jwt.verify` and the secret key: cryptography is a function parameter `verify`. The callback style is modelled as a synchronous call.
- The practice-zone routes do not use `checkRole`, and the other route files are not part of this model. `Guarded` describes how the two gates would combine on a route.

## Findings

| source | as written | input that shows it | evidently intended | confidence | as-written member | corrected member |
|---|---|---|---|---|---|---|
| server/socket.js:249 | `io.to(socketId).disconnect(true)`. With the Socket.IO 4 `Server` that the file imports, `io.to()` returns a broadcast operator, which has `disconnectSockets` and no `disconnect`. The call throws at the first stale user who still has a socket, before that user's three deletes, and no later user is visited. | One user "a" on socket "s1", stamped at 0, swept at `now` = 3600001: the callback throws before any of the three deletes for "a". No try/catch surrounds the callback and no `uncaughtException` handler is registered, so the uncaught error ends the Node process. Since `ping` refreshes no stamp, this happens at the first sweep after any user has stayed connected for more than an hour. | Close the stale user's socket and remove the user from the three maps, as Swept states. | not executed; assumes the Socket.IO 3 or 4 API, in which `io.to()` offers no `disconnect`; the modelled files do not fix the version | Socket.SweptAsWritten, Socket.SweptAsWrittenAborts, Socket.SweptAsWrittenKeepsStaleUser | Socket.Swept |
