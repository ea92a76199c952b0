/**
 * Entities of the subscription bot, the store the service reads and writes,
 * and the messages it hands to the chat transport.
 *
 * The store stands for the three repositories (users, tokens, products). The
 * repository queries the service calls are given here as predicates over the
 * stored rows; their database implementation is not part of this model.
 */
module Domain {
  import opened Wrappers
  import opened Dates

  /** Telegram user ids (Java `Long`); the core only compares them. */
  type UserId = int
  /** Telegram chat ids (Java `Long`). */
  type ChatId = int

  /** The nanoseconds elapsed since midnight: fewer than 86 400 seconds' worth. */
  type NanoOfDay = n: int | 0 <= n < 86_400_000_000_000

  /** A `LocalDateTime`: a date and the nanoseconds elapsed since midnight. */
  datatype DateTime = DateTime(date: Date, nanoOfDay: NanoOfDay)

  /** A registered user: a random internal id, the Telegram id and when `/start` first ran. */
  datatype User = User(id: int, userId: UserId, registrationDate: DateTime)

  /** An access token; `holder` is the Telegram id it was claimed by, if any (`relatedUserId`). */
  datatype Token = Token(id: int, code: string, generationDate: Date, expirationDate: Date,
                         holder: Option<UserId>)

  /** A scraped product; `availability` is a nullable `Boolean`. */
  datatype Product = Product(name: string, availability: Option<bool>, link: string)

  /** Users keyed by Telegram id, tokens keyed by code, and the last product snapshot. */
  datatype Store = Store(users: map<UserId, User>, tokens: map<string, Token>, products: seq<Product>)

  /** Every row is stored under its own key. */
  predicate Keyed(s: Store) {
    && (forall u :: u in s.users ==> s.users[u].userId == u)
    && (forall c :: c in s.tokens ==> s.tokens[c].code == c)
  }

  /** No user holds two tokens. */
  predicate OneTokenPerHolder(tokens: map<string, Token>) {
    forall c, d :: c in tokens && d in tokens && c != d && tokens[c].holder.Some? ==>
      tokens[c].holder != tokens[d].holder
  }

  // ---- Repository queries (assumed meaning of the unseen DAO methods) ----

  /** `userDao.isRegistered(u) > 0`: a user row exists for `u`. */
  predicate IsRegistered(s: Store, u: UserId) {
    u in s.users
  }

  /** `userDao.getUserRegistrationDate(u)`: the stored date, or null. */
  function RegistrationDateOf(s: Store, u: UserId): (r: Option<DateTime>)
    ensures r.Some? <==> IsRegistered(s, u)
  {
    if u in s.users then Some(s.users[u].registrationDate) else None
  }

  /** `tokenDao.isValidToken(code) > 0`: a token with this code is stored. */
  predicate IsValidToken(tokens: map<string, Token>, code: string) {
    code in tokens
  }

  /** `tokenDao.isSubscriber(u) > 0`: some stored token is held by `u`. */
  predicate IsSubscriber(tokens: map<string, Token>, u: UserId) {
    exists c :: c in tokens && tokens[c].holder == Some(u)
  }

  /** `tokenDao.allSubscribers()`, as the set the service builds from it. */
  function SubscriberIds(tokens: map<string, Token>): set<UserId> {
    set c | c in tokens && tokens[c].holder.Some? :: tokens[c].holder.value
  }

  /** `tokenDao.countSubscribers()`: the number of claimed tokens. */
  function CountSubscribers(tokens: map<string, Token>): nat {
    |set c | c in tokens && tokens[c].holder.Some?|
  }

  /** The subscriber predicate and the subscriber roster agree. */
  lemma SubscriberIdsMembers(tokens: map<string, Token>, u: UserId)
    ensures u in SubscriberIds(tokens) <==> IsSubscriber(tokens, u)
  {
    if IsSubscriber(tokens, u) {
      var c :| c in tokens && tokens[c].holder == Some(u);
      assert tokens[c].holder.value == u;
    }
  }

  /** A set without members is the empty set. */
  lemma EmptyByMembers<T>(rs: set<T>)
    ensures (forall x :: x !in rs) ==> rs == {}
  {
    if forall x :: x !in rs {
      assert rs == {};
    }
  }

  /** Distinct held tokens have distinct holders, so they name as many holders as there are tokens. */
  lemma {:induction false} HoldersOfCodes(tokens: map<string, Token>, cs: set<string>)
    requires OneTokenPerHolder(tokens)
    requires forall c :: c in cs ==> c in tokens && tokens[c].holder.Some?
    ensures |set c | c in cs :: tokens[c].holder.value| == |cs|
    decreases |cs|
  {
    EmptyByMembers(cs);
    if cs != {} {
      var c :| c in cs;
      var rest := cs - {c};
      HoldersOfCodes(tokens, rest);
      var holders := set d | d in cs :: tokens[d].holder.value;
      var others := set d | d in rest :: tokens[d].holder.value;
      assert tokens[c].holder.value !in others by {
        forall d | d in rest ensures tokens[d].holder.value != tokens[c].holder.value {
          assert tokens[d].holder != tokens[c].holder;
        }
      }
      assert holders == others + {tokens[c].holder.value};
    }
  }

  /**
   * With one token per holder, the number of claimed tokens that
   * `countSubscribers` reports is the number of distinct subscribers.
   */
  lemma CountSubscribersIsRoster(tokens: map<string, Token>)
    requires OneTokenPerHolder(tokens)
    ensures CountSubscribers(tokens) == |SubscriberIds(tokens)|
  {
    var held := set c | c in tokens && tokens[c].holder.Some?;
    HoldersOfCodes(tokens, held);
    assert SubscriberIds(tokens) == set c | c in held :: tokens[c].holder.value;
  }

  /** `isAdmin`: the sender is the configured administrator. */
  predicate IsAdmin(adminId: UserId, u: UserId) {
    u == adminId
  }

  // ---- Outbound messages ----

  /** What a message says; the Arabic texts of the bot are represented by their role. */
  datatype MessageKind =
    | ReplyKeyboard                 // sendReplyKeyboard
    | AdminNeedsNoSubscription      // "you are admin and need no subscription"
    | HowToSubscribe                // "to subscribe, write to @admin"
    | RegisteredAt(at: DateTime)    // "you registered at ..."
    | RestartBot                    // "error, please restart the bot"
    | RegisterFirst                 // "please register first"
    | ProductStatus(name: string, available: bool, link: string)
    | NewTokenCode(code: string)
    | SubscriberCount(count: nat)
    | CodeIsYours                   // "this code is yours"
    | ExpiresOn(date: Date)         // "subscription expires on ..."
    | TokenNotFound                 // "your id was not found, please register"
    | NowAvailable(name: string, link: string)

  /** One call to the chat transport: what was sent and to which chat or user id. */
  datatype Message = Message(kind: MessageKind, recipient: int)

  /**
   * The kinds of the messages sent to `r`, in sending order: every one comes
   * from a message to `r`, all of them when every message goes to `r`, and
   * none when no message does.
   */
  function MessagesTo(ms: seq<Message>, r: int): (ks: seq<MessageKind>)
    ensures |ks| <= |ms|
    ensures forall k :: k in ks ==> exists i :: 0 <= i < |ms| && ms[i].recipient == r && ms[i].kind == k
    ensures (forall i :: 0 <= i < |ms| ==> ms[i].recipient == r) ==> |ks| == |ms|
    ensures (forall i :: 0 <= i < |ms| ==> ms[i].recipient != r) ==> ks == []
  {
    if ms == [] then []
    else MessagesTo(ms[..|ms| - 1], r) + (if ms[|ms| - 1].recipient == r then [ms[|ms| - 1].kind] else [])
  }

  lemma {:induction false} MessagesToAppend(a: seq<Message>, b: seq<Message>, r: int)
    ensures MessagesTo(a + b, r) == MessagesTo(a, r) + MessagesTo(b, r)
    decreases |b|
  {
    if b == [] {
      assert a + b == a;
    } else {
      var b' := b[..|b| - 1];
      assert (a + b)[..|a + b| - 1] == a + b';
      MessagesToAppend(a, b', r);
    }
  }

  // ---- Exceptions and handler results ----

  /** The runtime exceptions the service can raise on its own data. */
  datatype Fault =
    | NullUnboxing            // NullPointerException when a null `Long` is unboxed
    | NullMapValue            // NullPointerException from `Collectors.toMap` on a null value
    | DuplicateKey(name: string)  // IllegalStateException from `Collectors.toMap`

  datatype Outcome = Completed | Threw(fault: Fault)

  /** The effect of one handler run: the new store, the messages sent, how it ended. */
  datatype Step = Step(store: Store, sent: seq<Message>, outcome: Outcome)

  /** A run that changes nothing and sends nothing. */
  function Quiet(s: Store): Step {
    Step(s, [], Completed)
  }

  // ---- Inbound events and environment ----

  /** A Telegram message: chat, sender and text (null for a non-text message). */
  datatype Incoming = Incoming(chatId: ChatId, from: UserId, text: Option<string>)

  /** A Telegram update; `message` is absent for updates that carry no message. */
  datatype Update = Update(message: Option<Incoming>)

  /**
   * Values the service draws from the environment while handling one update:
   * `new Random().nextLong()`, `UUID.randomUUID().toString()` and the clock.
   */
  datatype Inputs = Inputs(randomId: int, uuid: string, now: DateTime)
}
