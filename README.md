# Subscription bot service — a verified model

This project models `SubscriptionService`, the core of a Telegram bot that
sells access to product-availability alerts. Users send chat commands. The
admin issues access tokens of the form `tk-xxxxxxxx`. A user who sends an
unclaimed code becomes its holder and so a subscriber. A watcher job compares
each new scrape of the product catalogue with the stored snapshot, and tells
the admin and every subscriber about each product that has just become
available.

The model has eight modules:

- `Wrappers`: `Option`, `Result`, `Min`.
- `Dates`: the proleptic ISO calendar and `LocalDate.plusMonths`, which clamps the day to the end of the month.
- `Domain`: the entities (user, token, product) and the store behind the three repositories.
  - It also holds the repository queries as predicates over the store, the outbox messages, and the faults.
- `Commands`: the `switch` of `onUpdateReceived`.
- `Tokens`: the short id, issuing, claiming, and the dates of a token's lifecycle.
- `Watcher`: the old-snapshot lookup, the availability diff, the recipient set and the fan-out.
- `Handlers`: the other chat handlers, plus the dispatch of a whole update, written as pure functions from a store to a `Step`.
  - A `Step` holds the new store, the messages sent, and whether the run completed or threw.
- `Service`: the class `SubscriptionService`.
  - Its fields are the repositories and the outbox.
  - Its methods change them step by step the way the Java code does, with loops for the product listing and the nested `forEach` of the watcher.
  - Each method is proved to have exactly the effect of its pure counterpart, and the properties are proved as lemmas about those pure counterparts.

Assumptions about collaborators whose code is not part of this model:

- **Repositories.** `isRegistered(u)` holds when a user row is stored under Telegram id `u`.
  - `isValidToken(c)` holds when a token with code `c` is stored.
  - `isSubscriber(u)` holds when some stored token has holder `u`.
  - `allSubscribers()` returns the holders of tokens.
  - `countSubscribers()` is assumed to be the number of tokens that have a holder. The code does not show this query. While no user holds two tokens, that number equals the number of distinct subscribers (`Domain.CountSubscribersIsRoster`).
  - `productDao.findAll()` is assumed to return the rows in the order `saveAll` received them. The repository promises no order. This order decides the order of the product listing, and which `toMap` fault is raised first.
  - Tokens are keyed by code: saving a token whose code is already stored is assumed to replace that row. This is an assumption of the model. The saved token also gets a random `id` (line 152), and the repository might instead insert a second row with the same code, or reject the save under a uniqueness rule.
- **Chat transport.** Every `sendTextMessage` and `sendReplyKeyboard` call appends one `Message(kind, recipient)` to the outbox. The kind names the role of the Arabic text it stands for.
- **Environment.** The random row id, the UUID text and the current date-time are inputs (`Inputs`).
- **Scraper.** The scraped snapshot is an input.
- **Iteration order.** The iteration order of the recipient `HashSet` is chosen by `Watcher.IterationOrder`, and the watcher lemmas hold for every such order.

The following points differ from the expectations or informal descriptions
the code might raise. The model follows the code:

- The old-snapshot map is built with `Collectors.toMap`. It throws when a stored product has a null availability, and also when two stored products share a name.
  - So a stored product whose availability is unknown does not drop that product from the diff: the whole cycle fails before anything is sent or replaced.
  - `Watcher.DiffExample` shows this on the snapshot {A: false, B: true, C: unknown}.
- `getToken` compares `userId == token.getRelatedUserId()` at line 200, which unboxes a `Long` that may be null.
  - When a non-admin who already subscribes sends an unclaimed code, this throws `NullPointerException`. The token has already been written back by then, and no expiry message is sent.
- The scraped snapshot is stored as it is (lines 238-239), including a product whose availability could not be read. Such a product never counts as changed (line 221), but once it is stored, building the map at line 216 throws on every later cycle. The table is then never replaced again, and no notice is ever sent.
  - `Watcher.NotifyStoresUnknown` and `Watcher.NotifyStuckOnUnknown` state this.

## Model

All source paths are relative to the repository root.

| member | source | states |
|---|---|---|
| Wrappers.Min | src/main/java/project/service/SubscriptionService.java:251 | `Math.min`: the result is at most both arguments and equal to one of them |
| Dates.PlusMonths | src/main/java/project/service/SubscriptionService.java:155 | the month index moves by exactly `n`, and the day of month never grows |
| Dates.PlusMonthsMoves | src/main/java/project/service/SubscriptionService.java:155 | moving forwards by a positive number of months gives a strictly later date, and moving backwards an earlier one |
| Dates.PlusMonthsDay | src/main/java/project/service/SubscriptionService.java:155 | the day of month is kept when the target month has it, and is otherwise clamped to that month's last day |
| Dates.PlusMonthsRoundTrip | src/main/java/project/service/SubscriptionService.java:155 | for days up to the 28th, moving `n` months and back returns the original date |
| Dates.ClampExample | src/main/java/project/service/SubscriptionService.java:155 | 31 January plus one month is 28 February (29 in a leap year); 31 March minus one month is 29 February 2024 |
| Domain.RegistrationDateOf | src/main/java/project/service/SubscriptionService.java:254-256 | a registration date exists exactly for registered users |
| Domain.IsRegistered | src/main/java/project/service/SubscriptionService.java:270-272 | `isRegistered`: a user row is stored under the Telegram id |
| Domain.IsValidToken | src/main/java/project/service/SubscriptionService.java:262-264 | `isValidToken`: a token with this code is stored |
| Domain.IsSubscriber | src/main/java/project/service/SubscriptionService.java:266-268 | `isSubscriber`: some stored token has this holder |
| Domain.SubscriberIds | src/main/java/project/service/SubscriptionService.java:226 | the ids `allSubscribers` returns, put into a set: the holders of stored tokens; agreement with `IsSubscriber` in `Domain.SubscriberIdsMembers` |
| Domain.CountSubscribers | src/main/java/project/service/SubscriptionService.java:167 | `countSubscribers`: the number of stored tokens that have a holder |
| Domain.IsAdmin | src/main/java/project/service/SubscriptionService.java:258-260 | `isAdmin`: the sender id equals the configured admin id |
| Domain.SubscriberIdsMembers | src/main/java/project/service/SubscriptionService.java:266-268 | an id is in the subscriber roster exactly when `isSubscriber` holds for it |
| Domain.HoldersOfCodes | src/main/java/project/service/SubscriptionService.java:167 | with one token per holder, a set of held codes names as many distinct holders as it has codes |
| Domain.CountSubscribersIsRoster | src/main/java/project/service/SubscriptionService.java:167 | with one token per holder, the count `countSubscribers` reports equals the number of distinct subscribers |
| Commands.ParseCommand | src/main/java/project/service/SubscriptionService.java:51-62 | a claim carries the whole text as its code, and only for non-command texts with the `tk-` prefix; a text is ignored exactly when it is neither a command nor prefixed |
| Commands.ExactCommandsAreNotCodes | src/main/java/project/service/SubscriptionService.java:51-59 | none of the six command texts starts with `tk-`, so the claim route never shadows a command |
| Commands.ParseCommandText | src/main/java/project/service/SubscriptionService.java:51-62 | every command that some text can select is selected by its own text |
| Commands.CommandTextOfParse | src/main/java/project/service/SubscriptionService.java:51-62 | a text that selects a command is that command's text |
| Commands.ExactDispatch | src/main/java/project/service/SubscriptionService.java:51-62 | each exact text selects its own handler and only that text does; a claim is selected exactly for prefixed non-command texts |
| Tokens.RemoveDashes | src/main/java/project/service/SubscriptionService.java:250 | the result has no dash, is no longer than the input, and contains exactly the non-dash characters of the input |
| Tokens.ShortId | src/main/java/project/service/SubscriptionService.java:249-252 | `generateShortUUID`: no dash, length min(8, stripped length), and a prefix of the dash-stripped text |
| Tokens.ShortIdOfUuid | src/main/java/project/service/SubscriptionService.java:249-252 | for a canonical UUID text, the short id is its first group: eight hex digits |
| Tokens.TokenCode | src/main/java/project/service/SubscriptionService.java:151 | the code is `tk-` followed by the short id |
| Tokens.IssuedCodeRoutesToClaim | src/main/java/project/service/SubscriptionService.java:151 | every issued code, sent back as a chat message, is routed to the claim flow |
| Tokens.TokenCodeOfUuid | src/main/java/project/service/SubscriptionService.java:151 | for a canonical UUID text, the code is eleven characters: `tk-` and eight hex digits |
| Tokens.ExpiryDate | src/main/java/project/service/SubscriptionService.java:155 | the expiry date is one calendar month after the issue date and strictly later than it |
| Tokens.SweepCutoff | src/main/java/project/service/SubscriptionService.java:244-247 | the sweep cutoff is one calendar month before today and strictly earlier than it |
| Tokens.SweepCutoffOfExpiry | src/main/java/project/service/SubscriptionService.java:155 | for issue days up to the 28th, the cutoff computed on the expiry day equals the issue day |
| Tokens.NewToken | src/main/java/project/service/SubscriptionService.java:150-156 | the row issued: a random id, code `tk-<short id>`, issued today, expiring a month later, no holder; its contents are stated by `Tokens.IssueByAdmin` |
| Tokens.AdminGenerateNewToken | src/main/java/project/service/SubscriptionService.java:147-160 | `adminGenerateNewToken` on the store: nothing for a non-admin, else the new token saved under its code and the code sent to the admin; stated by `Tokens.IssueDeniedToOthers` and `Tokens.IssueByAdmin` |
| Tokens.IssueDeniedToOthers | src/main/java/project/service/SubscriptionService.java:149 | a `/newtoken` from anyone but the admin changes nothing and sends nothing |
| Tokens.IssueByAdmin | src/main/java/project/service/SubscriptionService.java:149-158 | the admin's request stores one unclaimed token with code `tk-<short id>`, issued today and expiring a month later; other codes, users and products are unchanged; exactly one message, the code, goes to the admin |
| Tokens.IssuePreservesInvariants | src/main/java/project/service/SubscriptionService.java:150-157 | issuing keeps rows under their own keys and never gives a user a second token |
| Tokens.IssueAddsNoSubscriber | src/main/java/project/service/SubscriptionService.java:156-157 | a token with a new code adds nobody to the subscriber roster |
| Tokens.ClaimUnknownCode | src/main/java/project/service/SubscriptionService.java:204-206 | an unknown code changes nothing and sends exactly the two replies to the sender |
| Tokens.ClaimedHolder | src/main/java/project/service/SubscriptionService.java:185-197 | the holder after a claim attempt: a held token keeps its holder; an unclaimed one gets the sender when the sender is neither admin nor subscriber, else stays unclaimed; stated by `Tokens.ClaimKeepsHeldToken` and `Tokens.ClaimUnclaimedToken` |
| Tokens.GetToken | src/main/java/project/service/SubscriptionService.java:177-209 | `getToken` on the store: two replies for an unknown code; otherwise the token written back with its new holder, the "yours" and expiry messages, and the null-unboxing throw of line 200; stated by the `Tokens.Claim…` lemmas and `Tokens.ExpiryDisclosure` |
| Tokens.ClaimKeepsHeldToken | src/main/java/project/service/SubscriptionService.java:185-201 | a held token is never reassigned, whoever sends it; its holder is told it is theirs and when it expires; the admin learns the expiry; anyone else gets nothing |
| Tokens.ClaimUnclaimedToken | src/main/java/project/service/SubscriptionService.java:191-202 | an unclaimed token gains a holder exactly when the sender is neither the admin nor a subscriber, and the holder is the sender; nothing else changes; a non-admin subscriber makes the handler throw after the write |
| Tokens.ClaimOthersUntouched | src/main/java/project/service/SubscriptionService.java:183-198 | a claim attempt changes no user, no product and no token other than the one sent |
| Tokens.ClaimSubscribers | src/main/java/project/service/SubscriptionService.java:191-198 | the subscriber roster grows by the sender exactly when the claim succeeds, and is otherwise unchanged |
| Tokens.ClaimNeverEnrolsAdmin | src/main/java/project/service/SubscriptionService.java:192 | the admin never becomes a subscriber by sending a code |
| Tokens.ClaimPreservesInvariants | src/main/java/project/service/SubscriptionService.java:191-198 | claiming keeps rows under their own keys and never gives a user a second token |
| Tokens.ClaimIdempotent | src/main/java/project/service/SubscriptionService.java:181-201 | a repeated claim leaves the store as the first left it; after a successful claim the repeat only says the code is yours and when it expires |
| Tokens.ExpiryDisclosure | src/main/java/project/service/SubscriptionService.java:200-202 | the expiry date is sent exactly when the sender is the admin or, after the attempt, the token's holder |
| Watcher.CollectAvailabilitySpec | src/main/java/project/service/SubscriptionService.java:216 | collecting name-to-availability pairs succeeds exactly when every value is known and the names are new and distinct; the result then holds every pair |
| Watcher.NamesCons | src/main/java/project/service/SubscriptionService.java:216 | the names of a snapshot are its first name together with the names of the rest |
| Watcher.CollectAvailabilityOk | src/main/java/project/service/SubscriptionService.java:216 | the `toMap` fold succeeds exactly when every value is known and every name is new and distinct |
| Watcher.CollectAvailabilityValue | src/main/java/project/service/SubscriptionService.java:216 | a successful fold keeps the accumulated entries and maps every product's name to its value |
| Watcher.CollectAvailability | src/main/java/project/service/SubscriptionService.java:216 | the `toMap` fold from the left: a null value fails first, then a repeated name, else the pair is added; stated by `Watcher.CollectAvailabilitySpec` |
| Watcher.OldAvailability | src/main/java/project/service/SubscriptionService.java:216 | the old-snapshot lookup, or the fault that building it raises; stated by `Watcher.OldAvailabilitySpec` |
| Watcher.NewlyAvailable | src/main/java/project/service/SubscriptionService.java:219-221 | the filter predicate: the new value is known true and the old lookup has the name with value false |
| Watcher.OldAvailabilitySpec | src/main/java/project/service/SubscriptionService.java:216 | the old-snapshot lookup is built exactly when no stored availability is null and no name repeats; its keys are then the stored names, mapped to their availabilities |
| Watcher.ChangedProducts | src/main/java/project/service/SubscriptionService.java:218-222 | the changed list is no longer than the scrape, and holds only scraped products that flipped from false to true |
| Watcher.ChangedProductsSpec | src/main/java/project/service/SubscriptionService.java:218-222 | the changed list is a subsequence of the scrape, in scrape order, and holds each flipped product exactly as often as the scrape, and nothing else |
| Watcher.ChangedExcludes | src/main/java/project/service/SubscriptionService.java:219-221 | a product absent from the old lookup, or with an unknown new availability, is never in the changed list |
| Watcher.Recipients | src/main/java/project/service/SubscriptionService.java:226-227 | the admin is always a recipient |
| Watcher.RecipientsMembers | src/main/java/project/service/SubscriptionService.java:226-227 | the recipients are exactly the admin and the subscribers |
| Watcher.RecipientsSize | src/main/java/project/service/SubscriptionService.java:226-227 | the admin adds one recipient exactly when not already a subscriber |
| Watcher.EnumerationSize | src/main/java/project/service/SubscriptionService.java:232 | an iteration of a set visits as many ids as the set holds |
| Watcher.Pick | src/main/java/project/service/SubscriptionService.java:232 | each step of a set iteration yields a member of the part not yet visited |
| Watcher.IterationOrder | src/main/java/project/service/SubscriptionService.java:232 | iterating a set yields each member exactly once and nothing else |
| Watcher.Notices | src/main/java/project/service/SubscriptionService.java:232-234 | one notice per recipient: the message at each position is the product's notice to the recipient at that position of the iteration order |
| Watcher.FanOut | src/main/java/project/service/SubscriptionService.java:230-235 | the nested loops send changed-count times recipient-count messages |
| Watcher.NoticesTo | src/main/java/project/service/SubscriptionService.java:232-234 | with distinct recipients, each recipient receives one product's notice exactly once, and nobody else receives it |
| Watcher.FanOutTo | src/main/java/project/service/SubscriptionService.java:230-235 | with distinct recipients, each recipient receives every changed product's notice once, in changed-list order, and nobody else receives anything |
| Watcher.Notify | src/main/java/project/service/SubscriptionService.java:212-241 | one watcher cycle: a fault from the lookup throws with nothing changed; otherwise the fan-out of the changed products when there are any, and the product table replaced by the scrape; stated by `Watcher.NotifyReplacesSnapshot`, `Watcher.NotifyFanOut` and `Watcher.NotifyQuietWithoutChange` |
| Watcher.NotifyReplacesSnapshot | src/main/java/project/service/SubscriptionService.java:214-239 | a cycle completes exactly when the stored snapshot has known, distinct entries; it then replaces the product table by the scrape and touches nothing else; otherwise it leaves the store as it was and sends nothing |
| Watcher.NotifyStuckOnUnknown | src/main/java/project/service/SubscriptionService.java:216 | while the stored snapshot holds a product with an unknown availability, every cycle throws, sends nothing and leaves the store as it is |
| Watcher.NotifyStoresUnknown | src/main/java/project/service/SubscriptionService.java:238-239 | a completed cycle on a scrape with an unknown availability stores it, so the next cycle throws and changes nothing |
| Watcher.NotifyFanOut | src/main/java/project/service/SubscriptionService.java:224-235 | in a completed cycle the admin and each subscriber get one notice per changed product, in order, and nobody else gets any; \|changed\| × \|recipients\| messages in all |
| Watcher.NotifyQuietWithoutChange | src/main/java/project/service/SubscriptionService.java:224-239 | a cycle without changes sends nothing and still replaces the snapshot |
| Watcher.DiffExample | src/main/java/project/service/SubscriptionService.java:216-222 | on {A: false, B: true} with scrape A, B, C, D all true, only A changes; a stored unknown availability makes the lookup throw |
| Handlers.RegisterSubReply | src/main/java/project/service/SubscriptionService.java:92-101 | the subscribe command answers the sender alone: the admin is told no subscription is needed, anyone else how to subscribe |
| Handlers.RegistrationDateReply | src/main/java/project/service/SubscriptionService.java:104-112 | a registered sender is told the stored registration time; an unregistered one is asked to restart the bot |
| Handlers.StartRegistersOnce | src/main/java/project/service/SubscriptionService.java:68-89 | `/start` always sends the keyboard; it stores an unregistered sender once, with this update's time, and welcomes them once, as admin or with the way to subscribe; a registered sender changes nothing |
| Handlers.StartTwice | src/main/java/project/service/SubscriptionService.java:72-78 | a second `/start` changes nothing and sends only the keyboard |
| Handlers.RegistrationDateAfterStart | src/main/java/project/service/SubscriptionService.java:77 | after a first `/start` the sender is told the time of that update as their registration time |
| Handlers.Listing | src/main/java/project/service/SubscriptionService.java:130-138 | one status message per stored product, to the sender, in stored order, with a null availability read as unavailable |
| Handlers.NewsAllProductsGating | src/main/java/project/service/SubscriptionService.java:115-144 | the admin and subscribers get one status message per stored product; anyone else gets exactly the two refusal messages; every reply goes to the sender; nothing changes |
| Handlers.AllSubscribersAdminOnly | src/main/java/project/service/SubscriptionService.java:163-174 | the subscriber count goes to the admin alone, and only at the admin's request: exactly one message carrying `CountSubscribers` of the stored tokens; nothing changes |
| Handlers.OnUpdateIgnores | src/main/java/project/service/SubscriptionService.java:47-63 | an update without text, or with a text that is neither a command nor prefixed by `tk-`, changes nothing and sends nothing |
| Handlers.OnUpdateClaims | src/main/java/project/service/SubscriptionService.java:58-61 | any other text with the `tk-` prefix runs the claim of that text |
| Handlers.OnUpdateExactCommands | src/main/java/project/service/SubscriptionService.java:51-57 | each of the six command texts runs its own handler |
| Handlers.OnUpdateFrames | src/main/java/project/service/SubscriptionService.java:45-65 | no command touches the product table; only `/start` adds users; only `/newtoken` and codes change tokens |
| Handlers.OnUpdatePreservesInvariants | src/main/java/project/service/SubscriptionService.java:45-65 | every update keeps rows under their own keys, never gives a user a second token, and never makes the admin a subscriber |
| Handlers.OnUpdateReceived | src/main/java/project/service/SubscriptionService.java:45-65 | dispatch of a whole update to the handler its text selects; stated by `Handlers.OnUpdateIgnores`, `Handlers.OnUpdateClaims`, `Handlers.OnUpdateExactCommands`, `Handlers.OnUpdateFrames` and `Handlers.OnUpdatePreservesInvariants` |
| Handlers.Start | src/main/java/project/service/SubscriptionService.java:68-89 | `start` on the store: keyboard to the chat, and for an unregistered sender the new user row and one welcome; stated by `Handlers.StartRegistersOnce` and `Handlers.StartTwice` |
| Handlers.RegisterSub | src/main/java/project/service/SubscriptionService.java:92-101 | the reply of the subscribe command; stated by `Handlers.RegisterSubReply` |
| Handlers.SendUserRegistrationDate | src/main/java/project/service/SubscriptionService.java:104-112 | the reply of the registration-date command; stated by `Handlers.RegistrationDateReply` |
| Handlers.ProductStatusOf | src/main/java/project/service/SubscriptionService.java:135 | one product's status line, with a null availability read as unavailable |
| Handlers.NewsAllProducts | src/main/java/project/service/SubscriptionService.java:115-144 | `newsAllProducts` on the store: the refusal or the product listing; stated by `Handlers.NewsAllProductsGating` |
| Handlers.AllSubscribers | src/main/java/project/service/SubscriptionService.java:163-174 | `allSubscribers` on the store: the subscriber count to the admin, nothing for anyone else; stated by `Handlers.AllSubscribersAdminOnly` |
| Service.SubscriptionService.OnUpdateReceived | src/main/java/project/service/SubscriptionService.java:45-65 | the state and outbox after an update are exactly those of the pure dispatch |
| Service.SubscriptionService.Start | src/main/java/project/service/SubscriptionService.java:68-89 | saving and sending step by step has exactly the effect of `Handlers.Start` |
| Service.SubscriptionService.RegisterSub | src/main/java/project/service/SubscriptionService.java:92-101 | sends exactly the reply of `Handlers.RegisterSub` |
| Service.SubscriptionService.SendUserRegistrationDate | src/main/java/project/service/SubscriptionService.java:104-112 | sends exactly the reply of `Handlers.SendUserRegistrationDate` |
| Service.SubscriptionService.NewsAllProducts | src/main/java/project/service/SubscriptionService.java:115-144 | the listing loop sends exactly the messages of `Handlers.NewsAllProducts` |
| Service.SubscriptionService.AdminGenerateNewToken | src/main/java/project/service/SubscriptionService.java:147-160 | has exactly the effect of `Tokens.AdminGenerateNewToken` |
| Service.SubscriptionService.AllSubscribers | src/main/java/project/service/SubscriptionService.java:163-174 | sends exactly the reply of `Handlers.AllSubscribers` |
| Service.SubscriptionService.GetToken | src/main/java/project/service/SubscriptionService.java:177-209 | changing the found token in place and writing it back has exactly the effect of `Tokens.GetToken`, including the thrown outcome |
| Service.SubscriptionService.NotifySubscribers | src/main/java/project/service/SubscriptionService.java:212-241 | the cycle has exactly the effect of `Watcher.Notify` for the iteration order it reports, and that order enumerates the recipient set |
| Service.SubscriptionService.SendToAll | src/main/java/project/service/SubscriptionService.java:230-235 | the outer loop sends exactly `Watcher.FanOut` |
| Service.SubscriptionService.SendNotice | src/main/java/project/service/SubscriptionService.java:232-234 | the inner loop sends exactly `Watcher.Notices` |
| Service.SubscriptionService.SendTextMessage | src/main/java/project/service/SubscriptionService.java:81 | `telegramBotService.sendTextMessage`: appends one message to the outbox |
| Service.SubscriptionService.SendReplyKeyboard | src/main/java/project/service/SubscriptionService.java:70 | `telegramBotService.sendReplyKeyboard`: appends the keyboard message for the chat |
| Service.SubscriptionService.SaveUser | src/main/java/project/service/SubscriptionService.java:78 | `userDao.save`: stores the user under its Telegram id |
| Service.SubscriptionService.SaveToken | src/main/java/project/service/SubscriptionService.java:157 | `tokenDao.save`: stores the token under its code |
| Service.SubscriptionService.UpdateToken | src/main/java/project/service/SubscriptionService.java:198 | writes the changed token back under its code |
| Service.SubscriptionService.DeleteAllInBatch | src/main/java/project/service/SubscriptionService.java:238 | the product table becomes empty |
| Service.SubscriptionService.SaveAll | src/main/java/project/service/SubscriptionService.java:239 | the new snapshot is appended to the product table |

## Left out

- Telegram transport: the calls are recorded as outbox entries and their delivery is not modelled. The Arabic message texts and the `String.format` layout are reduced to message kinds.
- `toString().substring(0, 19)` at line 108 is left out. It throws when the timestamp's text is shorter than 19 characters. That happens when both the seconds and the nanoseconds are zero, because `LocalDateTime.toString` then leaves the seconds out. the model sends the registration time as a value.
- `deletePastMonthTokens`: only the cutoff date is modelled (`Tokens.SweepCutoff`). The comparison `deleteOldTokens` applies lies in the repository, whose code is not part of this model, so the sweep does not change the modelled store.
- Repository queries keep the meanings listed above. Their SQL is not part of this model, so neither is any expiry check those queries might perform.
- `scrapingService.getAllProducts` (network and HTML parsing): the scrape is an input to `NotifySubscribers`.
- `new Random().nextLong()`, `UUID.randomUUID()`, `LocalDate.now()` and `LocalDateTime.now()` are inputs.
  - `adminGenerateNewToken` reads `LocalDate.now()` twice, at lines 154 and 155. The model uses one date for both, so it does not capture a token issued across midnight.
- Token code collisions: a new code equal to a stored one replaces the stored row. Nothing rules out such a collision, and `Tokens.IssueAddsNoSubscriber` assumes the code is new.
- `@Scheduled` timing and the concurrency of the jobs with chat updates are left out, and so is the non-transactional delete-then-insert of the product table. Each handler runs atomically in the model.
- `LocalDate` range errors: `DateTimeException` beyond year ±999999999 is not modelled, because years are unbounded integers.
- Null fields of entities are left out: a null product name, link or admin id, and a message without a sender. The nulls the code tests and the model keeps are these:
  - the nullable availability (lines 135, 216 and 221);
  - the nullable token holder (lines 185, 192 and 200);
  - the nullable registration date (lines 107 and 109), as the `Option` that `Domain.RegistrationDateOf` returns.
- The `productList != null` test at line 128 is left out. `productDao.findAll()` is assumed never to return null, so the product table is always a (possibly empty) sequence.
- Long arithmetic: Telegram ids are unbounded integers. The code only compares them, so no wrap-around can occur.
