/**
 * The command router's decision: which handler an inbound text selects.
 * Six texts are matched exactly; any other text that starts with the token
 * prefix goes to the claim flow; everything else is ignored.
 */
module Commands {

  const StartText: string := "/start"
  const SubscribeText: string := "الاشتراک"
  const RegistrationDateText: string := "تاريخ تسجيلي"
  const CheckProductsText: string := "التحقق من توفر المنتجات"
  const NewTokenText: string := "/newtoken"
  const AllSubscribersText: string := "/allsubscribers"
  const TokenPrefix: string := "tk-"

  datatype Command =
    | Start
    | Subscribe
    | RegistrationDate
    | CheckProducts
    | NewToken
    | AllSubscribers
    | ClaimToken(code: string)
    | Ignored

  /** Java's `String.startsWith`. */
  predicate StartsWith(s: string, prefix: string) {
    |prefix| <= |s| && s[..|prefix|] == prefix
  }

  /** The six texts matched exactly by the `switch`. */
  predicate IsExactCommand(text: string) {
    text == StartText || text == SubscribeText || text == RegistrationDateText
    || text == CheckProductsText || text == NewTokenText || text == AllSubscribersText
  }

  /** The `switch` of `onUpdateReceived` on the text of a message. */
  function ParseCommand(text: string): (c: Command)
    ensures c.ClaimToken? ==> c.code == text && StartsWith(text, TokenPrefix) && !IsExactCommand(text)
    ensures c.Ignored? <==> !IsExactCommand(text) && !StartsWith(text, TokenPrefix)
  {
    if text == StartText then Start
    else if text == SubscribeText then Subscribe
    else if text == RegistrationDateText then RegistrationDate
    else if text == CheckProductsText then CheckProducts
    else if text == NewTokenText then NewToken
    else if text == AllSubscribersText then AllSubscribers
    else if StartsWith(text, TokenPrefix) then ClaimToken(text)
    else Ignored
  }

  /** A command that some text selects: a claim must carry a code with the token prefix. */
  predicate IsRoutable(c: Command) {
    !c.Ignored? && (c.ClaimToken? ==> StartsWith(c.code, TokenPrefix))
  }

  /** The text that selects a command. */
  function CommandText(c: Command): (text: string)
    requires IsRoutable(c)
  {
    match c
    case Start => StartText
    case Subscribe => SubscribeText
    case RegistrationDate => RegistrationDateText
    case CheckProducts => CheckProductsText
    case NewToken => NewTokenText
    case AllSubscribers => AllSubscribersText
    case ClaimToken(code) => code
  }

  /** None of the exact commands starts with the token prefix, so the two routes never overlap. */
  lemma ExactCommandsAreNotCodes(text: string)
    requires IsExactCommand(text)
    ensures !StartsWith(text, TokenPrefix)
  {
    assert StartText[0] == '/' && NewTokenText[0] == '/' && AllSubscribersText[0] == '/';
    assert SubscribeText[0] != 't' && RegistrationDateText[0] != 't' && CheckProductsText[0] != 't';
    assert text[0] != TokenPrefix[0];
    if |text| >= 3 {
      assert text[..3][0] == text[0];
    }
  }

  /** Each routable command is selected by its text: the router is onto. */
  lemma ParseCommandText(c: Command)
    requires IsRoutable(c)
    ensures ParseCommand(CommandText(c)) == c
  {
    if c.ClaimToken? && IsExactCommand(c.code) {
      ExactCommandsAreNotCodes(c.code);
    }
  }

  /** A text that selects a command is that command's text: at most one text per command. */
  lemma CommandTextOfParse(text: string)
    requires !ParseCommand(text).Ignored?
    ensures IsRoutable(ParseCommand(text)) && CommandText(ParseCommand(text)) == text
  {
  }

  /** Exactly the six texts select the six fixed handlers, each its own one. */
  lemma ExactDispatch(text: string)
    ensures ParseCommand(text) == Start <==> text == StartText
    ensures ParseCommand(text) == Subscribe <==> text == SubscribeText
    ensures ParseCommand(text) == RegistrationDate <==> text == RegistrationDateText
    ensures ParseCommand(text) == CheckProducts <==> text == CheckProductsText
    ensures ParseCommand(text) == NewToken <==> text == NewTokenText
    ensures ParseCommand(text) == AllSubscribers <==> text == AllSubscribersText
    ensures ParseCommand(text).ClaimToken? <==> !IsExactCommand(text) && StartsWith(text, TokenPrefix)
  {
  }
}
