/**
 * The remaining chat-command handlers of the subscription service and the
 * dispatch of a whole update, as functions from the store to a `Step`.
 */
module Handlers {
  import opened Wrappers
  import opened Dates
  import opened Domain
  import Commands
  import opened Tokens

  /**
   * `start`: the reply keyboard goes to the chat, then an unregistered sender
   * is stored with the current time and gets one welcome message.
   */
  function Start(s: Store, adminId: UserId, chatId: ChatId, from: UserId, env: Inputs): Step {
    var keyboard := [Message(ReplyKeyboard, chatId)];
    if IsRegistered(s, from) then Step(s, keyboard, Completed)
    else
      var welcome := if IsAdmin(adminId, from) then Message(AdminNeedsNoSubscription, adminId)
                     else Message(HowToSubscribe, from);
      Step(s.(users := s.users[from := User(env.randomId, from, env.now)]), keyboard + [welcome], Completed)
  }

  /**
   * A sender is registered after `/start`. A registered sender is never stored
   * again and only gets the keyboard; a new one is stored with the time of
   * this update and is welcomed once: the admin as admin, anyone else with
   * the way to subscribe.
   */
  lemma StartRegistersOnce(s: Store, adminId: UserId, chatId: ChatId, from: UserId, env: Inputs)
    ensures var step := Start(s, adminId, chatId, from, env);
      && IsRegistered(step.store, from)
      && step.store.tokens == s.tokens && step.store.products == s.products
      && step.outcome == Completed
      && step.sent[0] == Message(ReplyKeyboard, chatId)
      && (IsRegistered(s, from) ==> step.store == s && |step.sent| == 1)
      && (!IsRegistered(s, from) ==>
            && step.store.users == s.users[from := User(env.randomId, from, env.now)]
            && |step.sent| == 2
            && step.sent[1] == (if from == adminId then Message(AdminNeedsNoSubscription, adminId)
                                else Message(HowToSubscribe, from)))
  {
  }

  /** A second `/start` changes nothing, whatever the new random id and time. */
  lemma StartTwice(s: Store, adminId: UserId, chatId: ChatId, from: UserId, env: Inputs, env': Inputs)
    ensures var first := Start(s, adminId, chatId, from, env);
      Start(first.store, adminId, chatId, from, env') == Step(first.store, [Message(ReplyKeyboard, chatId)], Completed)
  {
  }

  /** `registerSub`: one informational reply to the sender. */
  function RegisterSub(adminId: UserId, from: UserId): Message {
    if IsAdmin(adminId, from) then Message(AdminNeedsNoSubscription, from) else Message(HowToSubscribe, from)
  }

  /** `sendUserRegistrationDate`: the stored registration time, or a request to restart the bot. */
  function SendUserRegistrationDate(s: Store, from: UserId): Message {
    match RegistrationDateOf(s, from)
    case Some(at) => Message(RegisteredAt(at), from)
    case None => Message(RestartBot, from)
  }

  /** The subscribe command answers the sender alone: the admin is told no subscription is needed. */
  lemma RegisterSubReply(adminId: UserId, from: UserId)
    ensures var m := RegisterSub(adminId, from);
      && m.recipient == from
      && (m.kind == AdminNeedsNoSubscription <==> from == adminId)
      && (m.kind == HowToSubscribe <==> from != adminId)
  {
  }

  /** A registered sender is told the stored registration time; anyone else is asked to restart the bot. */
  lemma RegistrationDateReply(s: Store, from: UserId)
    ensures var m := SendUserRegistrationDate(s, from);
      && m.recipient == from
      && (IsRegistered(s, from) ==> m.kind == RegisteredAt(s.users[from].registrationDate))
      && (!IsRegistered(s, from) <==> m.kind == RestartBot)
  {
  }

  /** After a first `/start` the sender is told the time of that update as registration time. */
  lemma RegistrationDateAfterStart(s: Store, adminId: UserId, chatId: ChatId, from: UserId, env: Inputs)
    requires !IsRegistered(s, from)
    ensures SendUserRegistrationDate(Start(s, adminId, chatId, from, env).store, from)
            == Message(RegisteredAt(env.now), from)
  {
  }

  /** The product line of `newsAllProducts`; a null availability reads as unavailable. */
  function ProductStatusOf(p: Product): MessageKind {
    ProductStatus(p.name, p.availability == Some(true), p.link)
  }

  /** One status message per stored product, in the stored order. */
  function Listing(ps: seq<Product>, to: UserId): (ms: seq<Message>)
    ensures |ms| == |ps|
    ensures forall i :: 0 <= i < |ps| ==> ms[i] == Message(ProductStatusOf(ps[i]), to)
  {
    if ps == [] then [] else Listing(ps[..|ps| - 1], to) + [Message(ProductStatusOf(ps[|ps| - 1]), to)]
  }

  /** `newsAllProducts`: the product list for the admin and subscribers, a refusal for anyone else. */
  function NewsAllProducts(s: Store, adminId: UserId, from: UserId): Step {
    var subscriber := IsSubscriber(s.tokens, from);
    var refusal := if !subscriber && !IsAdmin(adminId, from)
                   then [Message(RegisterFirst, from), Message(HowToSubscribe, from)] else [];
    var listing := if IsAdmin(adminId, from) || subscriber then Listing(s.products, from) else [];
    Step(s, refusal + listing, Completed)
  }

  /**
   * Only the admin and subscribers see the products: they get one status
   * message per stored product and nothing else; anyone else gets exactly the
   * two refusal messages. Every reply goes to the sender and nothing changes.
   */
  lemma NewsAllProductsGating(s: Store, adminId: UserId, from: UserId)
    ensures var step := NewsAllProducts(s, adminId, from);
      && step.store == s && step.outcome == Completed
      && (forall i :: 0 <= i < |step.sent| ==> step.sent[i].recipient == from)
      && (from == adminId || IsSubscriber(s.tokens, from) ==>
            |step.sent| == |s.products|
            && forall i :: 0 <= i < |s.products| ==> step.sent[i].kind == ProductStatusOf(s.products[i]))
      && (from != adminId && !IsSubscriber(s.tokens, from) ==>
            step.sent == [Message(RegisterFirst, from), Message(HowToSubscribe, from)])
  {
  }

  /** `allSubscribers`: the number of subscribers, for the admin only. */
  function AllSubscribers(s: Store, adminId: UserId, from: UserId): Step {
    if IsAdmin(adminId, from) then Step(s, [Message(SubscriberCount(CountSubscribers(s.tokens)), adminId)], Completed)
    else Quiet(s)
  }

  /** The subscriber count is sent to the admin alone, at the admin's request alone; nothing changes. */
  lemma AllSubscribersAdminOnly(s: Store, adminId: UserId, from: UserId)
    ensures var step := AllSubscribers(s, adminId, from);
      && step.store == s && step.outcome == Completed
      && (forall m :: m in step.sent ==> m.recipient == adminId && m.kind.SubscriberCount?)
      && (|step.sent| == 1 <==> from == adminId)
      && (from != adminId ==> step.sent == [])
      && (from == adminId ==> step.sent == [Message(SubscriberCount(CountSubscribers(s.tokens)), adminId)])
  {
  }

  /** The text of an update that carries a text message. */
  predicate HasText(u: Update) {
    u.message.Some? && u.message.value.text.Some?
  }

  /** `onUpdateReceived`: route the text, if any, to its handler. */
  function OnUpdateReceived(s: Store, adminId: UserId, u: Update, env: Inputs): Step {
    if !HasText(u) then Quiet(s)
    else
      var m := u.message.value;
      match Commands.ParseCommand(m.text.value)
      case Start => Start(s, adminId, m.chatId, m.from, env)
      case Subscribe => Step(s, [RegisterSub(adminId, m.from)], Completed)
      case RegistrationDate => Step(s, [SendUserRegistrationDate(s, m.from)], Completed)
      case CheckProducts => NewsAllProducts(s, adminId, m.from)
      case NewToken => AdminGenerateNewToken(s, adminId, m.from, env)
      case AllSubscribers => AllSubscribers(s, adminId, m.from)
      case ClaimToken(code) => GetToken(s, adminId, m.from, code)
      case Ignored => Quiet(s)
  }

  /** An update without text, or with a text that is neither a command nor a code, does nothing. */
  lemma OnUpdateIgnores(s: Store, adminId: UserId, u: Update, env: Inputs)
    requires !HasText(u)
             || (!Commands.IsExactCommand(u.message.value.text.value)
                 && !Commands.StartsWith(u.message.value.text.value, Commands.TokenPrefix))
    ensures OnUpdateReceived(s, adminId, u, env) == Quiet(s)
  {
  }

  /** Any other text with the token prefix is a claim of that text as a code. */
  lemma OnUpdateClaims(s: Store, adminId: UserId, chatId: ChatId, from: UserId, text: string, env: Inputs)
    requires !Commands.IsExactCommand(text) && Commands.StartsWith(text, Commands.TokenPrefix)
    ensures OnUpdateReceived(s, adminId, Update(Some(Incoming(chatId, from, Some(text)))), env)
            == GetToken(s, adminId, from, text)
  {
    Commands.ExactDispatch(text);
  }

  /** The six command texts select their own handlers. */
  lemma OnUpdateExactCommands(s: Store, adminId: UserId, chatId: ChatId, from: UserId, env: Inputs)
    ensures var run := (t: string) => OnUpdateReceived(s, adminId, Update(Some(Incoming(chatId, from, Some(t)))), env);
      && run(Commands.StartText) == Start(s, adminId, chatId, from, env)
      && run(Commands.SubscribeText) == Step(s, [RegisterSub(adminId, from)], Completed)
      && run(Commands.RegistrationDateText) == Step(s, [SendUserRegistrationDate(s, from)], Completed)
      && run(Commands.CheckProductsText) == NewsAllProducts(s, adminId, from)
      && run(Commands.NewTokenText) == AdminGenerateNewToken(s, adminId, from, env)
      && run(Commands.AllSubscribersText) == AllSubscribers(s, adminId, from)
  {
  }

  /**
   * Commands never touch the product snapshot; only `/start` adds users; only
   * `/newtoken` and codes change tokens.
   */
  lemma OnUpdateFrames(s: Store, adminId: UserId, u: Update, env: Inputs)
    ensures var step := OnUpdateReceived(s, adminId, u, env);
      && step.store.products == s.products
      && (step.store.users != s.users ==>
            HasText(u) && Commands.ParseCommand(u.message.value.text.value) == Commands.Start)
      && (step.store.tokens != s.tokens ==>
            HasText(u) && Commands.ParseCommand(u.message.value.text.value) in
              {Commands.NewToken, Commands.ClaimToken(u.message.value.text.value)})
  {
    if HasText(u) {
      var m := u.message.value;
      if Commands.ParseCommand(m.text.value).ClaimToken? {
        ClaimOthersUntouched(s, adminId, m.from, m.text.value);
      }
    }
  }

  /**
   * Every update keeps rows under their own keys and never gives a user a
   * second token; nor does it make the admin a subscriber.
   */
  lemma OnUpdatePreservesInvariants(s: Store, adminId: UserId, u: Update, env: Inputs)
    requires Keyed(s) && OneTokenPerHolder(s.tokens)
    ensures var step := OnUpdateReceived(s, adminId, u, env);
      && Keyed(step.store) && OneTokenPerHolder(step.store.tokens)
      && (IsSubscriber(step.store.tokens, adminId) ==> IsSubscriber(s.tokens, adminId))
  {
    var step := OnUpdateReceived(s, adminId, u, env);
    if HasText(u) {
      var m := u.message.value;
      match Commands.ParseCommand(m.text.value)
      case NewToken =>
        IssuePreservesInvariants(s, adminId, m.from, env);
        if IsSubscriber(step.store.tokens, adminId) {
          var c :| c in step.store.tokens && step.store.tokens[c].holder == Some(adminId);
          assert c in s.tokens && s.tokens[c].holder == Some(adminId);
        }
      case ClaimToken(code) =>
        ClaimPreservesInvariants(s, adminId, m.from, code);
        ClaimSubscribers(s, adminId, m.from, code);
        SubscriberIdsMembers(s.tokens, adminId);
        SubscriberIdsMembers(step.store.tokens, adminId);
      case _ =>
    }
  }
}
