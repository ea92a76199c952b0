/**
 * The token authority: shaping token codes, issuing tokens (admin only),
 * claiming them on first use, and the cutoff date of the expiry sweep.
 */
module Tokens {
  import opened Wrappers
  import opened Dates
  import opened Domain
  import opened Commands

  // ---- Token codes ----

  /** `s.replace("-", "")`: every dash removed, everything else kept in order. */
  function RemoveDashes(s: string): (r: string)
    ensures '-' !in r
    ensures |r| <= |s|
    ensures forall c :: c in r <==> c in s && c != '-'
  {
    if s == [] then []
    else (if s[0] == '-' then [] else [s[0]]) + RemoveDashes(s[1..])
  }

  lemma {:induction false} RemoveDashesAppend(a: string, b: string)
    ensures RemoveDashes(a + b) == RemoveDashes(a) + RemoveDashes(b)
  {
    if a == [] {
      assert a + b == b;
    } else {
      assert (a + b)[0] == a[0] && (a + b)[1..] == a[1..] + b;
      RemoveDashesAppend(a[1..], b);
    }
  }

  lemma {:induction false} RemoveDashesOfDashFree(s: string)
    requires '-' !in s
    ensures RemoveDashes(s) == s
  {
    if s != [] {
      assert s[0] in s;
      assert forall c :: c in s[1..] ==> c in s;
      RemoveDashesOfDashFree(s[1..]);
    }
  }

  /**
   * `generateShortUUID` applied to the text of a UUID: the first eight
   * characters of that text once its dashes are removed (fewer if it is shorter).
   */
  function ShortId(uuid: string): (r: string)
    ensures '-' !in r
    ensures |r| == Min(8, |RemoveDashes(uuid)|)
    ensures r <= RemoveDashes(uuid)
  {
    var stripped := RemoveDashes(uuid);
    var r := stripped[..Min(8, |stripped|)];
    assert forall c :: c in r ==> c in stripped;
    r
  }

  /** A lower-case hexadecimal digit, as `UUID.toString` writes them. */
  predicate IsHexDigit(c: char) {
    ('0' <= c <= '9') || ('a' <= c <= 'f')
  }

  /** The canonical 8-4-4-4-12 text form of a UUID. */
  predicate IsUuidText(s: string) {
    |s| == 36
    && forall i :: 0 <= i < |s| ==>
         if i == 8 || i == 13 || i == 18 || i == 23 then s[i] == '-' else IsHexDigit(s[i])
  }

  /** For a real UUID the short id is its first group: exactly eight hex digits. */
  lemma ShortIdOfUuid(uuid: string)
    requires IsUuidText(uuid)
    ensures ShortId(uuid) == uuid[..8]
    ensures |ShortId(uuid)| == 8 && forall i :: 0 <= i < 8 ==> IsHexDigit(ShortId(uuid)[i])
  {
    var head, tail := uuid[..8], uuid[8..];
    assert uuid == head + tail;
    assert forall i :: 0 <= i < 8 ==> head[i] == uuid[i] && IsHexDigit(head[i]);
    assert '-' !in head;
    RemoveDashesAppend(head, tail);
    RemoveDashesOfDashFree(head);
    assert RemoveDashes(uuid)[..8] == head;
  }

  /** The code of a new token: the prefix followed by the short id. */
  function TokenCode(uuid: string): (code: string)
    ensures StartsWith(code, TokenPrefix) && code[|TokenPrefix|..] == ShortId(uuid)
  {
    TokenPrefix + ShortId(uuid)
  }

  /** Every issued code is routed to the claim flow when a user sends it back. */
  lemma IssuedCodeRoutesToClaim(uuid: string)
    ensures ParseCommand(TokenCode(uuid)) == Command.ClaimToken(TokenCode(uuid))
  {
    var code := TokenCode(uuid);
    if IsExactCommand(code) {
      ExactCommandsAreNotCodes(code);
    }
  }

  /** For a real UUID the code has the form `tk-` followed by eight hex digits. */
  lemma TokenCodeOfUuid(uuid: string)
    requires IsUuidText(uuid)
    ensures |TokenCode(uuid)| == 11
    ensures TokenCode(uuid) == TokenPrefix + uuid[..8]
    ensures forall i :: 3 <= i < 11 ==> IsHexDigit(TokenCode(uuid)[i])
  {
    ShortIdOfUuid(uuid);
  }

  // ---- Dates of the lifecycle ----

  /** `today.plus(Period.ofMonths(1))`: the expiration date of a token issued today. */
  function ExpiryDate(today: Date): (e: Date)
    ensures MonthIndex(e) == MonthIndex(today) + 1
    ensures IsBefore(today, e)
  {
    PlusMonthsMoves(today, 1);
    PlusMonths(today, 1)
  }

  /** `today.minusMonths(1)`: the date handed to the repository by the daily sweep. */
  function SweepCutoff(today: Date): (cutoff: Date)
    ensures MonthIndex(cutoff) == MonthIndex(today) - 1
    ensures IsBefore(cutoff, today)
  {
    PlusMonthsMoves(today, -1);
    PlusMonths(today, -1)
  }

  /** A token issued on a day up to the 28th: the sweep reaches its issue date exactly when it expires. */
  lemma SweepCutoffOfExpiry(issued: Date)
    requires issued.day <= 28
    ensures SweepCutoff(ExpiryDate(issued)) == issued
  {
    PlusMonthsRoundTrip(issued, 1);
  }

  // ---- Issuance ----

  /** The row `adminGenerateNewToken` saves. */
  function NewToken(id: int, uuid: string, today: Date): Token {
    Token(id, TokenCode(uuid), today, ExpiryDate(today), None)
  }

  /** `adminGenerateNewToken`: the admin gets a new unclaimed token; anyone else gets nothing. */
  function AdminGenerateNewToken(s: Store, adminId: UserId, from: UserId, env: Inputs): Step {
    if !IsAdmin(adminId, from) then Quiet(s)
    else
      var t := NewToken(env.randomId, env.uuid, env.now.date);
      Step(s.(tokens := s.tokens[t.code := t]), [Message(NewTokenCode(t.code), adminId)], Completed)
  }

  /** Nobody but the admin can issue a token, and trying changes and sends nothing. */
  lemma IssueDeniedToOthers(s: Store, adminId: UserId, from: UserId, env: Inputs)
    requires from != adminId
    ensures AdminGenerateNewToken(s, adminId, from, env) == Quiet(s)
  {
  }

  /**
   * The admin's request stores one unclaimed token under the code `tk-<short id>`,
   * expiring one month after its issue date, leaves every other code as it was
   * and sends that code to the admin only.
   */
  lemma IssueByAdmin(s: Store, adminId: UserId, env: Inputs)
    ensures var step := AdminGenerateNewToken(s, adminId, adminId, env);
      var code := TokenCode(env.uuid);
      var today := env.now.date;
      && code in step.store.tokens
      && step.store.tokens[code].code == code
      && step.store.tokens[code].holder == None
      && step.store.tokens[code].generationDate == today
      && step.store.tokens[code].expirationDate == ExpiryDate(today)
      && IsBefore(today, step.store.tokens[code].expirationDate)
      && step.store.tokens.Keys == s.tokens.Keys + {code}
      && (forall c :: c in s.tokens && c != code ==> step.store.tokens[c] == s.tokens[c])
      && step.store.users == s.users && step.store.products == s.products
      && step.sent == [Message(NewTokenCode(code), adminId)]
      && step.outcome == Completed
  {
  }

  /** Issuing keeps the store keyed and never gives anyone a second token. */
  lemma IssuePreservesInvariants(s: Store, adminId: UserId, from: UserId, env: Inputs)
    requires Keyed(s) && OneTokenPerHolder(s.tokens)
    ensures Keyed(AdminGenerateNewToken(s, adminId, from, env).store)
    ensures OneTokenPerHolder(AdminGenerateNewToken(s, adminId, from, env).store.tokens)
  {
  }

  /** A fresh code adds no subscriber: the new token is unclaimed. */
  lemma IssueAddsNoSubscriber(s: Store, adminId: UserId, from: UserId, env: Inputs)
    requires TokenCode(env.uuid) !in s.tokens
    ensures SubscriberIds(AdminGenerateNewToken(s, adminId, from, env).store.tokens) == SubscriberIds(s.tokens)
  {
    var t2 := AdminGenerateNewToken(s, adminId, from, env).store.tokens;
    forall u ensures u in SubscriberIds(t2) <==> u in SubscriberIds(s.tokens) {
      SubscriberIdsMembers(t2, u);
      SubscriberIdsMembers(s.tokens, u);
      if IsSubscriber(t2, u) {
        var c :| c in t2 && t2[c].holder == Some(u);
        assert c in s.tokens && s.tokens[c].holder == Some(u);
      }
      if IsSubscriber(s.tokens, u) {
        var c :| c in s.tokens && s.tokens[c].holder == Some(u);
        assert c in t2 && t2[c].holder == Some(u);
      }
    }
  }

  // ---- Claim ----

  /** The holder a token has after a claim attempt by `from`. */
  function ClaimedHolder(t: Token, adminId: UserId, from: UserId, subscriber: bool): Option<UserId> {
    if t.holder.Some? then t.holder
    else if !IsAdmin(adminId, from) && !subscriber then Some(from)
    else None
  }

  /**
   * `getToken`: the text `code` sent by `from`. An unknown code gets two replies.
   * A known token is re-saved on every path; it gains a holder only if it had
   * none and the sender is neither the admin nor already a subscriber. The
   * expiry date is disclosed to the admin and to the holder; for any other
   * sender the comparison unboxes the holder, which throws when it is null.
   */
  function GetToken(s: Store, adminId: UserId, from: UserId, code: string): Step {
    if !IsValidToken(s.tokens, code) then
      Step(s, [Message(TokenNotFound, from), Message(HowToSubscribe, from)], Completed)
    else
      var t := s.tokens[code];
      var yours := if t.holder == Some(from) then [Message(CodeIsYours, from)] else [];
      var t' := t.(holder := ClaimedHolder(t, adminId, from, IsSubscriber(s.tokens, from)));
      var s' := s.(tokens := s.tokens[code := t']);
      if IsAdmin(adminId, from) || t'.holder == Some(from) then
        Step(s', yours + [Message(ExpiresOn(t'.expirationDate), from)], Completed)
      else if t'.holder.None? then
        Step(s', yours, Threw(NullUnboxing))
      else
        Step(s', yours, Completed)
  }

  /** An unknown code changes nothing and sends exactly two replies to the sender. */
  lemma ClaimUnknownCode(s: Store, adminId: UserId, from: UserId, code: string)
    requires code !in s.tokens
    ensures var step := GetToken(s, adminId, from, code);
      step.store == s && step.outcome == Completed
      && step.sent == [Message(TokenNotFound, from), Message(HowToSubscribe, from)]
  {
  }

  /**
   * A held token is never reassigned, whoever sends its code: the store is
   * unchanged. Its holder is told the code is theirs and its expiry date; the
   * admin learns the expiry date; anyone else gets no reply.
   */
  lemma ClaimKeepsHeldToken(s: Store, adminId: UserId, from: UserId, code: string)
    requires code in s.tokens && s.tokens[code].holder.Some?
    ensures var step := GetToken(s, adminId, from, code);
      var t := s.tokens[code];
      && step.store == s
      && step.outcome == Completed
      && step.sent == (if t.holder == Some(from) then [Message(CodeIsYours, from)] else [])
                      + (if from == adminId || t.holder == Some(from)
                         then [Message(ExpiresOn(t.expirationDate), from)] else [])
  {
    assert s.tokens[code := s.tokens[code]] == s.tokens;
  }

  /**
   * An unclaimed token becomes the sender's exactly when the sender is neither
   * the admin nor already a subscriber, and otherwise stays unclaimed. No
   * other field and no other token changes. A non-admin subscriber makes the
   * handler throw after the write; every other sender learns the expiry date.
   */
  lemma ClaimUnclaimedToken(s: Store, adminId: UserId, from: UserId, code: string)
    requires code in s.tokens && s.tokens[code].holder.None?
    ensures var step := GetToken(s, adminId, from, code);
      var t := s.tokens[code];
      var t' := step.store.tokens[code];
      var claims := from != adminId && !IsSubscriber(s.tokens, from);
      && step.store.users == s.users && step.store.products == s.products
      && step.store.tokens.Keys == s.tokens.Keys
      && (forall c :: c in s.tokens && c != code ==> step.store.tokens[c] == s.tokens[c])
      && (t'.holder.Some? <==> claims)
      && (t'.holder.Some? ==> t'.holder == Some(from))
      && t'.(holder := None) == t
      && (step.outcome == Threw(NullUnboxing) <==> from != adminId && IsSubscriber(s.tokens, from))
      && (step.outcome == Completed <==> !(from != adminId && IsSubscriber(s.tokens, from)))
      && step.sent == (if step.outcome.Completed? then [Message(ExpiresOn(t.expirationDate), from)] else [])
  {
  }

  /** A claim attempt only ever touches the token of the code sent. */
  lemma ClaimOthersUntouched(s: Store, adminId: UserId, from: UserId, code: string)
    ensures var step := GetToken(s, adminId, from, code);
      && step.store.users == s.users && step.store.products == s.products
      && step.store.tokens.Keys == s.tokens.Keys
      && (forall c :: c in s.tokens && c != code ==> step.store.tokens[c] == s.tokens[c])
  {
  }

  /** Whether a claim attempt by `from` on `code` gives the token its holder. */
  predicate Claims(s: Store, adminId: UserId, from: UserId, code: string) {
    code in s.tokens && s.tokens[code].holder.None? && from != adminId && !IsSubscriber(s.tokens, from)
  }

  /** The subscriber roster grows by the sender when the claim succeeds, and is otherwise unchanged. */
  lemma ClaimSubscribers(s: Store, adminId: UserId, from: UserId, code: string)
    ensures var t2 := GetToken(s, adminId, from, code).store.tokens;
      SubscriberIds(t2) == SubscriberIds(s.tokens) + (if Claims(s, adminId, from, code) then {from} else {})
  {
    var t2 := GetToken(s, adminId, from, code).store.tokens;
    var expected := SubscriberIds(s.tokens) + (if Claims(s, adminId, from, code) then {from} else {});
    forall u ensures u in SubscriberIds(t2) <==> u in expected {
      SubscriberIdsMembers(t2, u);
      SubscriberIdsMembers(s.tokens, u);
      if IsSubscriber(t2, u) {
        var c :| c in t2 && t2[c].holder == Some(u);
        if c != code || s.tokens[c].holder.Some? {
          assert s.tokens[c].holder == Some(u);
        }
      }
      if IsSubscriber(s.tokens, u) {
        var c :| c in s.tokens && s.tokens[c].holder == Some(u);
        assert t2[c].holder == Some(u);
      }
      if Claims(s, adminId, from, code) && u == from {
        assert t2[code].holder == Some(from);
      }
    }
  }

  /** The admin never becomes a subscriber by sending a code. */
  lemma ClaimNeverEnrolsAdmin(s: Store, adminId: UserId, code: string)
    ensures SubscriberIds(GetToken(s, adminId, adminId, code).store.tokens) == SubscriberIds(s.tokens)
  {
    ClaimSubscribers(s, adminId, adminId, code);
  }

  /** Claiming keeps the store keyed and never gives anyone a second token. */
  lemma ClaimPreservesInvariants(s: Store, adminId: UserId, from: UserId, code: string)
    requires Keyed(s) && OneTokenPerHolder(s.tokens)
    ensures Keyed(GetToken(s, adminId, from, code).store)
    ensures OneTokenPerHolder(GetToken(s, adminId, from, code).store.tokens)
  {
    var t2 := GetToken(s, adminId, from, code).store.tokens;
    forall c, d | c in t2 && d in t2 && c != d && t2[c].holder.Some?
      ensures t2[c].holder != t2[d].holder
    {
      if c == code && Claims(s, adminId, from, code) {
        assert t2[d] == s.tokens[d];
        assert s.tokens[d].holder != Some(from);
      } else if d == code && Claims(s, adminId, from, code) {
        assert t2[c] == s.tokens[c];
        assert s.tokens[c].holder != Some(from);
      }
    }
  }

  /**
   * Sending the same code twice leaves the store as the first attempt left it;
   * when the first attempt claimed the token, the second only tells the sender
   * that the code is theirs and when it expires.
   */
  lemma ClaimIdempotent(s: Store, adminId: UserId, from: UserId, code: string)
    ensures var first := GetToken(s, adminId, from, code);
      var second := GetToken(first.store, adminId, from, code);
      && second.store == first.store
      && (Claims(s, adminId, from, code) ==>
            second.sent == [Message(CodeIsYours, from),
                            Message(ExpiresOn(s.tokens[code].expirationDate), from)])
  {
    var first := GetToken(s, adminId, from, code);
    if code in s.tokens {
      var t' := first.store.tokens[code];
      if t'.holder.Some? {
        ClaimKeepsHeldToken(first.store, adminId, from, code);
      } else {
        assert s.tokens[code].holder.None? && (from == adminId || IsSubscriber(s.tokens, from));
        if from != adminId {
          var c :| c in s.tokens && s.tokens[c].holder == Some(from);
          assert c != code;
          assert first.store.tokens[c].holder == Some(from);
        }
        assert first.store.tokens[code := t'] == first.store.tokens;
      }
    }
  }

  /** The expiry date is disclosed exactly to the admin and to the token's holder after the attempt. */
  lemma ExpiryDisclosure(s: Store, adminId: UserId, from: UserId, code: string)
    requires code in s.tokens
    ensures var step := GetToken(s, adminId, from, code);
      (exists m :: m in step.sent && m.kind.ExpiresOn?)
        <==> from == adminId || step.store.tokens[code].holder == Some(from)
  {
    var step := GetToken(s, adminId, from, code);
    if from == adminId || step.store.tokens[code].holder == Some(from) {
      assert step.sent[|step.sent| - 1].kind.ExpiresOn?;
    }
  }
}
