/**
 * The subscription service as an object: the store it reads and writes
 * through its repositories, and the outbox of everything handed to the chat
 * transport. Each handler changes the fields step by step as the service
 * does and is proved to have the effect of its pure counterpart.
 */
module Service {
  import opened Wrappers
  import opened Dates
  import opened Domain
  import Commands
  import Tokens
  import Watcher
  import Handlers

  class SubscriptionService {
    /** `bot_info.adminId`. */
    const adminId: UserId
    /** The user repository, keyed by Telegram id. */
    var users: map<UserId, User>
    /** The token repository, keyed by code. */
    var tokens: map<string, Token>
    /** The product repository: the last stored snapshot. */
    var products: seq<Product>
    /** Every message handed to the chat transport so far, in order. */
    var outbox: seq<Message>

    function State(): Store
      reads this
    {
      Store(users, tokens, products)
    }

    constructor (adminId: UserId, initial: Store)
      ensures this.adminId == adminId && State() == initial && outbox == []
    {
      this.adminId := adminId;
      users, tokens, products := initial.users, initial.tokens, initial.products;
      outbox := [];
    }

    // ---- Chat transport ----

    method SendTextMessage(kind: MessageKind, recipient: int)
      modifies this`outbox
      ensures outbox == old(outbox) + [Message(kind, recipient)]
    {
      outbox := outbox + [Message(kind, recipient)];
    }

    method SendReplyKeyboard(chatId: ChatId)
      modifies this`outbox
      ensures outbox == old(outbox) + [Message(ReplyKeyboard, chatId)]
    {
      outbox := outbox + [Message(ReplyKeyboard, chatId)];
    }

    // ---- Repositories ----

    method SaveUser(u: User)
      modifies this`users
      ensures users == old(users)[u.userId := u]
    {
      users := users[u.userId := u];
    }

    method SaveToken(t: Token)
      modifies this`tokens
      ensures tokens == old(tokens)[t.code := t]
    {
      tokens := tokens[t.code := t];
    }

    /** `tokenDao.updateToken`: writes back the row that was found under `code`. */
    method UpdateToken(code: string, t: Token)
      modifies this`tokens
      ensures tokens == old(tokens)[code := t]
    {
      tokens := tokens[code := t];
    }

    method DeleteAllInBatch()
      modifies this`products
      ensures products == []
    {
      products := [];
    }

    method SaveAll(ps: seq<Product>)
      modifies this`products
      ensures products == old(products) + ps
    {
      products := products + ps;
    }

    // ---- Handlers ----

    /** `onUpdateReceived`. */
    method OnUpdateReceived(u: Update, env: Inputs) returns (outcome: Outcome)
      modifies this
      ensures var step := Handlers.OnUpdateReceived(old(State()), adminId, u, env);
        State() == step.store && outbox == old(outbox) + step.sent && outcome == step.outcome
    {
      outcome := Completed;
      if u.message.Some? && u.message.value.text.Some? {
        var m := u.message.value;
        match Commands.ParseCommand(m.text.value)
        case Start => Start(m.chatId, m.from, env);
        case Subscribe => RegisterSub(m.from);
        case RegistrationDate => SendUserRegistrationDate(m.from);
        case CheckProducts => NewsAllProducts(m.from);
        case NewToken => AdminGenerateNewToken(m.from, env);
        case AllSubscribers => AllSubscribers(m.from);
        case ClaimToken(code) => outcome := GetToken(m.from, code);
        case Ignored =>
      }
    }

    /** `start`. */
    method Start(chatId: ChatId, from: UserId, env: Inputs)
      modifies this`users, this`outbox
      ensures var step := Handlers.Start(old(State()), adminId, chatId, from, env);
        State() == step.store && outbox == old(outbox) + step.sent
    {
      SendReplyKeyboard(chatId);
      if !IsRegistered(State(), from) {
        SaveUser(User(env.randomId, from, env.now));
        if IsAdmin(adminId, from) {
          SendTextMessage(AdminNeedsNoSubscription, adminId);
        }
        if !IsAdmin(adminId, from) {
          SendTextMessage(HowToSubscribe, from);
        }
      }
    }

    /** `registerSub`. */
    method RegisterSub(from: UserId)
      modifies this`outbox
      ensures outbox == old(outbox) + [Handlers.RegisterSub(adminId, from)]
    {
      if IsAdmin(adminId, from) {
        SendTextMessage(AdminNeedsNoSubscription, from);
      } else {
        SendTextMessage(HowToSubscribe, from);
      }
    }

    /** `sendUserRegistrationDate`. */
    method SendUserRegistrationDate(from: UserId)
      modifies this`outbox
      ensures outbox == old(outbox) + [Handlers.SendUserRegistrationDate(old(State()), from)]
    {
      var date := RegistrationDateOf(State(), from);
      if date.Some? {
        SendTextMessage(RegisteredAt(date.value), from);
      } else {
        SendTextMessage(RestartBot, from);
      }
    }

    /** `newsAllProducts`: one message per stored product, sent in a loop. */
    method NewsAllProducts(from: UserId)
      modifies this`outbox
      ensures outbox == old(outbox) + Handlers.NewsAllProducts(old(State()), adminId, from).sent
    {
      if !IsSubscriber(tokens, from) {
        if !IsAdmin(adminId, from) {
          SendTextMessage(RegisterFirst, from);
          SendTextMessage(HowToSubscribe, from);
        }
      }
      if IsAdmin(adminId, from) || IsSubscriber(tokens, from) {
        var productList := products;
        ghost var before := outbox;
        var i := 0;
        while i < |productList|
          invariant 0 <= i <= |productList|
          invariant outbox == before + Handlers.Listing(productList[..i], from)
        {
          assert productList[..i + 1][..i] == productList[..i];
          SendTextMessage(Handlers.ProductStatusOf(productList[i]), from);
          i := i + 1;
        }
        assert productList[..i] == productList;
      }
    }

    /** `adminGenerateNewToken`. */
    method AdminGenerateNewToken(from: UserId, env: Inputs)
      modifies this`tokens, this`outbox
      ensures var step := Tokens.AdminGenerateNewToken(old(State()), adminId, from, env);
        State() == step.store && outbox == old(outbox) + step.sent
    {
      if IsAdmin(adminId, from) {
        var tokenCode := Tokens.TokenCode(env.uuid);
        var today := env.now.date;
        var token := Token(env.randomId, tokenCode, today, Tokens.ExpiryDate(today), None);
        SaveToken(token);
        SendTextMessage(NewTokenCode(tokenCode), adminId);
      }
    }

    /** `allSubscribers`. */
    method AllSubscribers(from: UserId)
      modifies this`outbox
      ensures outbox == old(outbox) + Handlers.AllSubscribers(old(State()), adminId, from).sent
    {
      if IsAdmin(adminId, from) {
        var count := CountSubscribers(tokens);
        SendTextMessage(SubscriberCount(count), adminId);
      }
    }

    /** `getToken`: the token found is changed in place and written back on every path. */
    method GetToken(from: UserId, code: string) returns (outcome: Outcome)
      modifies this`tokens, this`outbox
      ensures var step := Tokens.GetToken(old(State()), adminId, from, code);
        State() == step.store && outbox == old(outbox) + step.sent && outcome == step.outcome
    {
      if IsValidToken(tokens, code) {
        var token := tokens[code];
        if token.holder.Some? {
          if token.holder.value == from {
            SendTextMessage(CodeIsYours, from);
          }
        } else {
          if token.holder.None? && !IsAdmin(adminId, from) {
            if !IsSubscriber(tokens, from) {
              token := token.(holder := Some(from));
            }
          }
        }
        UpdateToken(code, token);
        if IsAdmin(adminId, from) {
          SendTextMessage(ExpiresOn(token.expirationDate), from);
          return Completed;
        }
        if token.holder.None? {
          return Threw(NullUnboxing);
        }
        if from == token.holder.value {
          SendTextMessage(ExpiresOn(token.expirationDate), from);
        }
        outcome := Completed;
      } else {
        SendTextMessage(TokenNotFound, from);
        SendTextMessage(HowToSubscribe, from);
        outcome := Completed;
      }
    }

    /**
     * `notifySubscribers`, given the scraped snapshot. Returns how the cycle
     * ended and the order in which the recipient set was iterated.
     */
    method NotifySubscribers(scraped: seq<Product>) returns (outcome: Outcome, order: seq<UserId>)
      modifies this`products, this`outbox
      ensures var step := Watcher.Notify(old(State()), adminId, scraped, order);
        State() == step.store && outbox == old(outbox) + step.sent && outcome == step.outcome
      ensures var previous := Watcher.OldAvailability(old(products));
        previous.Ok? && Watcher.ChangedProducts(scraped, previous.value) != [] ==>
          Watcher.IsEnumeration(order, Watcher.Recipients(tokens, adminId))
    {
      order := [];
      var previous := Watcher.OldAvailability(products);
      if previous.Err? {
        return Threw(previous.error), order;
      }
      var changed := Watcher.ChangedProducts(scraped, previous.value);
      if changed != [] {
        var recipients := Watcher.Recipients(tokens, adminId);
        order := Watcher.IterationOrder(recipients);
        SendToAll(changed, order);
      }
      DeleteAllInBatch();
      SaveAll(scraped);
      outcome := Completed;
    }

    /** `changedAvailability.forEach(...)`: every changed product announced to every recipient. */
    method SendToAll(changed: seq<Product>, order: seq<UserId>)
      modifies this`outbox
      ensures outbox == old(outbox) + Watcher.FanOut(changed, order)
    {
      var i := 0;
      while i < |changed|
        invariant 0 <= i <= |changed|
        invariant outbox == old(outbox) + Watcher.FanOut(changed[..i], order)
      {
        assert changed[..i + 1][..i] == changed[..i];
        SendNotice(changed[i], order);
        i := i + 1;
      }
      assert changed[..i] == changed;
    }

    /** `subscribersIdList.forEach(...)`: one product's notice to each recipient in turn. */
    method SendNotice(product: Product, order: seq<UserId>)
      modifies this`outbox
      ensures outbox == old(outbox) + Watcher.Notices(product, order)
    {
      var j := 0;
      while j < |order|
        invariant 0 <= j <= |order|
        invariant outbox == old(outbox) + Watcher.Notices(product, order[..j])
      {
        assert order[..j + 1][..j] == order[..j];
        SendTextMessage(Watcher.Notice(product), order[j]);
        j := j + 1;
      }
      assert order[..j] == order;
    }
  }
}
