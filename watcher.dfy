/**
 * The availability watcher and the notification fan-out: the lookup built
 * from the stored snapshot, the products that flipped from unavailable to
 * available, the recipients, the messages sent, and the snapshot replacement.
 */
module Watcher {
  import opened Wrappers
  import opened Domain

  // ---- The lookup built from the stored snapshot ----

  /** Every product of the snapshot has a non-null availability. */
  predicate AllKnown(ps: seq<Product>) {
    forall i :: 0 <= i < |ps| ==> ps[i].availability.Some?
  }

  /** No product name occurs twice in the snapshot. */
  predicate DistinctNames(ps: seq<Product>) {
    forall i, j :: 0 <= i < j < |ps| ==> ps[i].name != ps[j].name
  }

  function Names(ps: seq<Product>): set<string> {
    set i | 0 <= i < |ps| :: ps[i].name
  }

  /**
   * `Collectors.toMap(Product::getName, Product::getAvailability)` run over `ps`
   * from the left into `acc`: a null value throws before its key is inserted,
   * a key already present throws next.
   */
  function CollectAvailability(ps: seq<Product>, acc: map<string, bool>): Result<map<string, bool>, Fault>
    decreases |ps|
  {
    if ps == [] then Ok(acc)
    else if ps[0].availability.None? then Err(NullMapValue)
    else if ps[0].name in acc then Err(DuplicateKey(ps[0].name))
    else CollectAvailability(ps[1..], acc[ps[0].name := ps[0].availability.value])
  }

  /** The name-to-availability lookup of the stored snapshot, or the exception building it throws. */
  function OldAvailability(ps: seq<Product>): Result<map<string, bool>, Fault> {
    CollectAvailability(ps, map[])
  }

  /** The names of a non-empty snapshot: its first name and the names of the rest. */
  lemma NamesCons(ps: seq<Product>)
    requires ps != []
    ensures Names(ps) == {ps[0].name} + Names(ps[1..])
  {
    var rest := ps[1..];
    forall n | n in Names(ps) ensures n in {ps[0].name} + Names(rest) {
      var i :| 0 <= i < |ps| && ps[i].name == n;
      if i > 0 { assert rest[i - 1].name == n; }
    }
    forall n | n in Names(rest) ensures n in Names(ps) {
      var i :| 0 <= i < |rest| && rest[i].name == n;
      assert ps[i + 1].name == n;
    }
  }

  /** Collecting succeeds exactly when every value is known and every name is new and distinct. */
  lemma {:induction false} CollectAvailabilityOk(ps: seq<Product>, acc: map<string, bool>)
    ensures CollectAvailability(ps, acc).Ok?
      <==> AllKnown(ps) && DistinctNames(ps) && (forall i :: 0 <= i < |ps| ==> ps[i].name !in acc)
    decreases |ps|
  {
    if ps != [] && ps[0].availability.Some? && ps[0].name !in acc {
      var p, rest := ps[0], ps[1..];
      var acc' := acc[p.name := p.availability.value];
      CollectAvailabilityOk(rest, acc');
      assert forall i :: 0 < i < |ps| ==> ps[i] == rest[i - 1];
      assert AllKnown(ps) <==> AllKnown(rest);
      assert DistinctNames(ps) && (forall i :: 0 <= i < |ps| ==> ps[i].name !in acc)
        <==> DistinctNames(rest) && (forall i :: 0 <= i < |rest| ==> rest[i].name !in acc');
    }
  }

  /** A successful collection keeps `acc` and adds every product's name with its value. */
  lemma {:induction false} CollectAvailabilityValue(ps: seq<Product>, acc: map<string, bool>)
    requires CollectAvailability(ps, acc).Ok?
    ensures var m := CollectAvailability(ps, acc).value;
      && m.Keys == acc.Keys + Names(ps)
      && (forall k :: k in acc ==> m[k] == acc[k])
      && (forall i :: 0 <= i < |ps| ==> ps[i].availability == Some(m[ps[i].name]))
    decreases |ps|
  {
    if ps != [] {
      var p, rest := ps[0], ps[1..];
      var acc' := acc[p.name := p.availability.value];
      CollectAvailabilityValue(rest, acc');
      NamesCons(ps);
      assert forall i :: 0 < i < |ps| ==> ps[i] == rest[i - 1];
    }
  }

  lemma CollectAvailabilitySpec(ps: seq<Product>, acc: map<string, bool>)
    ensures CollectAvailability(ps, acc).Ok?
      <==> AllKnown(ps) && DistinctNames(ps) && (forall i :: 0 <= i < |ps| ==> ps[i].name !in acc)
    ensures CollectAvailability(ps, acc).Ok? ==>
      var m := CollectAvailability(ps, acc).value;
      && m.Keys == acc.Keys + Names(ps)
      && (forall k :: k in acc ==> m[k] == acc[k])
      && (forall i :: 0 <= i < |ps| ==> m[ps[i].name] == ps[i].availability.value)
  {
    CollectAvailabilityOk(ps, acc);
    if CollectAvailability(ps, acc).Ok? {
      CollectAvailabilityValue(ps, acc);
    }
  }

  /**
   * Building the lookup succeeds exactly when every stored availability is
   * known and no name repeats; it then holds every stored product's value. So
   * "old value unknown" can only mean "name absent from the stored snapshot".
   */
  lemma OldAvailabilitySpec(ps: seq<Product>)
    ensures OldAvailability(ps).Ok? <==> AllKnown(ps) && DistinctNames(ps)
    ensures OldAvailability(ps).Ok? ==>
      var m := OldAvailability(ps).value;
      && m.Keys == Names(ps)
      && (forall i :: 0 <= i < |ps| ==> m[ps[i].name] == ps[i].availability.value)
  {
    CollectAvailabilitySpec(ps, map[]);
  }

  // ---- The changed list ----

  /** The filter of `notifySubscribers`: known true now, and known false in the stored snapshot. */
  predicate NewlyAvailable(p: Product, previous: map<string, bool>) {
    p.availability == Some(true) && p.name in previous && !previous[p.name]
  }

  /** The products of the scraped snapshot that became available, in the snapshot's order. */
  function ChangedProducts(scraped: seq<Product>, previous: map<string, bool>): (changed: seq<Product>)
    ensures |changed| <= |scraped|
    ensures forall p :: p in changed ==> p in scraped && NewlyAvailable(p, previous)
  {
    if scraped == [] then []
    else (if NewlyAvailable(scraped[0], previous) then [scraped[0]] else []) + ChangedProducts(scraped[1..], previous)
  }

  /** `a` is `b` with some elements left out, the rest kept in order. */
  ghost predicate IsSubsequence<T>(a: seq<T>, b: seq<T>)
    decreases |b|
  {
    a == [] || (b != [] && ((a[0] == b[0] && IsSubsequence(a[1..], b[1..])) || IsSubsequence(a, b[1..])))
  }

  /**
   * The changed list keeps the scraped snapshot's order and holds each newly
   * available product as often as the snapshot does, and nothing else.
   */
  lemma {:induction false} ChangedProductsSpec(scraped: seq<Product>, previous: map<string, bool>)
    ensures IsSubsequence(ChangedProducts(scraped, previous), scraped)
    ensures forall p :: multiset(ChangedProducts(scraped, previous))[p]
                         == if NewlyAvailable(p, previous) then multiset(scraped)[p] else 0
  {
    if scraped != [] {
      var rest := scraped[1..];
      ChangedProductsSpec(rest, previous);
      assert scraped == [scraped[0]] + rest;
      var changed := ChangedProducts(scraped, previous);
      if NewlyAvailable(scraped[0], previous) {
        assert changed == [scraped[0]] + ChangedProducts(rest, previous);
        assert changed[1..] == ChangedProducts(rest, previous);
      } else {
        assert changed == ChangedProducts(rest, previous);
      }
    }
  }

  /** A product absent from the stored snapshot, or with a null availability now, never counts. */
  lemma ChangedExcludes(scraped: seq<Product>, previous: map<string, bool>, p: Product)
    requires p.name !in previous || p.availability.None?
    ensures p !in ChangedProducts(scraped, previous)
  {
  }

  // ---- Recipients and fan-out ----

  /** The subscriber ids put in a `HashSet`, plus the admin. */
  function Recipients(tokens: map<string, Token>, adminId: UserId): (r: set<UserId>)
    ensures adminId in r
  {
    SubscriberIds(tokens) + {adminId}
  }

  /** Exactly the admin and the subscribers receive notifications. */
  lemma RecipientsMembers(tokens: map<string, Token>, adminId: UserId, u: UserId)
    ensures u in Recipients(tokens, adminId) <==> u == adminId || IsSubscriber(tokens, u)
  {
    SubscriberIdsMembers(tokens, u);
  }

  /** Adding the admin adds a recipient only when the admin is not already a subscriber. */
  lemma RecipientsSize(tokens: map<string, Token>, adminId: UserId)
    ensures |Recipients(tokens, adminId)|
            == |SubscriberIds(tokens)| + (if IsSubscriber(tokens, adminId) then 0 else 1)
  {
    SubscriberIdsMembers(tokens, adminId);
    if adminId in SubscriberIds(tokens) {
      assert Recipients(tokens, adminId) == SubscriberIds(tokens);
    }
  }

  predicate Distinct<T(==)>(xs: seq<T>) {
    forall i, j :: 0 <= i < j < |xs| ==> xs[i] != xs[j]
  }

  /** `order` lists each element of `rs` exactly once: one iteration order of the set. */
  predicate IsEnumeration(order: seq<UserId>, rs: set<UserId>) {
    Distinct(order) && (forall x :: x in order ==> x in rs) && (forall x :: x in rs ==> x in order)
  }

  lemma {:induction false} EnumerationSize(order: seq<UserId>, rs: set<UserId>)
    requires IsEnumeration(order, rs)
    ensures |order| == |rs|
    decreases |order|
  {
    if order != [] {
      var last := order[|order| - 1];
      var init := order[..|order| - 1];
      assert forall x :: x in init ==> x in order;
      assert last !in init by {
        forall i | 0 <= i < |init| ensures init[i] != last {
          assert order[i] != order[|order| - 1];
        }
      }
      forall x | x in rs - {last} ensures x in init {
        var i :| 0 <= i < |order| && order[i] == x;
        assert i < |order| - 1 && init[i] == x;
      }
      EnumerationSize(init, rs - {last});
      assert last in rs && rs == (rs - {last}) + {last};
    } else {
      assert forall x :: x !in rs;
      assert rs == {};
    }
  }

  /**
   * A set of ids without members is the empty set (the generic
   * `EmptyByMembers` states this over boxed values, which `:|` on ids cannot use).
   */
  lemma EmptyByIds(rs: set<UserId>)
    ensures (forall x :: x !in rs) ==> rs == {}
  {
    if forall x :: x !in rs {
      assert rs == {};
    }
  }

  /** The next member an iterator over a non-empty set yields. */
  method Pick(rs: set<UserId>) returns (x: UserId)
    requires rs != {}
    ensures x in rs
  {
    EmptyByIds(rs);
    x :| x in rs;
  }

  /** Iterating a `HashSet`: some order in which each member comes exactly once. */
  method IterationOrder(rs: set<UserId>) returns (order: seq<UserId>)
    ensures IsEnumeration(order, rs)
  {
    order := [];
    var rest := rs;
    while rest != {}
      invariant rest <= rs
      invariant Distinct(order)
      invariant forall x :: x in order ==> x in rs && x !in rest
      invariant forall x :: x in rs ==> x in order || x in rest
      decreases |rest|
    {
      var x := Pick(rest);
      order := order + [x];
      rest := rest - {x};
    }
  }

  /** The notice of one product for one recipient. */
  function Notice(p: Product): MessageKind {
    NowAvailable(p.name, p.link)
  }

  /** One product's notice sent to each recipient in iteration order. */
  function Notices(p: Product, order: seq<UserId>): (ms: seq<Message>)
    ensures |ms| == |order|
    ensures forall j :: 0 <= j < |order| ==> ms[j] == Message(Notice(p), order[j])
  {
    if order == [] then []
    else Notices(p, order[..|order| - 1]) + [Message(Notice(p), order[|order| - 1])]
  }

  /** The nested `forEach`: for each changed product, its notice to each recipient. */
  function FanOut(changed: seq<Product>, order: seq<UserId>): (ms: seq<Message>)
    ensures |ms| == |changed| * |order|
  {
    if changed == [] then []
    else
      var rest := FanOut(changed[..|changed| - 1], order);
      assert |rest| + |order| == |changed| * |order| by {
        assert (|changed| - 1) * |order| + |order| == |changed| * |order|;
      }
      rest + Notices(changed[|changed| - 1], order)
  }

  /** The notices one recipient is due: one per changed product, in order. */
  function Announcements(changed: seq<Product>): (ks: seq<MessageKind>)
    ensures |ks| == |changed|
    ensures forall i :: 0 <= i < |changed| ==> ks[i] == Notice(changed[i])
  {
    if changed == [] then [] else Announcements(changed[..|changed| - 1]) + [Notice(changed[|changed| - 1])]
  }

  lemma {:induction false} NoticesTo(p: Product, order: seq<UserId>, r: UserId)
    requires Distinct(order)
    ensures MessagesTo(Notices(p, order), r) == if r in order then [Notice(p)] else []
    decreases |order|
  {
    if order != [] {
      var init, last := order[..|order| - 1], order[|order| - 1];
      var ms := Notices(p, order);
      assert ms[..|ms| - 1] == Notices(p, init);
      NoticesTo(p, init, r);
      assert forall x :: x in init ==> x in order;
      if r == last {
        assert r !in init by {
          forall i | 0 <= i < |init| ensures init[i] != r {
            assert order[i] != order[|order| - 1];
          }
        }
      } else if r in order {
        var i :| 0 <= i < |order| && order[i] == r;
        assert init[i] == r;
      }
    }
  }

  /**
   * With recipients that are pairwise distinct, every one of them receives
   * every changed product's notice exactly once, in the order of the changed
   * list, and nobody else receives anything.
   */
  lemma {:induction false} FanOutTo(changed: seq<Product>, order: seq<UserId>, r: UserId)
    requires Distinct(order)
    ensures MessagesTo(FanOut(changed, order), r) == if r in order then Announcements(changed) else []
    decreases |changed|
  {
    if changed != [] {
      var init, last := changed[..|changed| - 1], changed[|changed| - 1];
      FanOutTo(init, order, r);
      NoticesTo(last, order, r);
      MessagesToAppend(FanOut(init, order), Notices(last, order), r);
    }
  }

  // ---- One watcher cycle ----

  /**
   * `notifySubscribers` given the scraped snapshot and the iteration order of the
   * recipient set: if the stored snapshot's lookup cannot be built the cycle
   * throws with nothing sent or replaced; otherwise every changed product is
   * announced to every recipient and the stored snapshot becomes the scraped one.
   */
  function Notify(s: Store, adminId: UserId, scraped: seq<Product>, order: seq<UserId>): Step {
    match OldAvailability(s.products)
    case Err(f) => Step(s, [], Threw(f))
    case Ok(previous) =>
      var changed := ChangedProducts(scraped, previous);
      Step(s.(products := scraped), if changed == [] then [] else FanOut(changed, order), Completed)
  }

  /**
   * A cycle either fails on the stored snapshot and leaves the store as it was,
   * or completes and replaces the product table by the scraped snapshot exactly,
   * touching no user and no token.
   */
  lemma NotifyReplacesSnapshot(s: Store, adminId: UserId, scraped: seq<Product>, order: seq<UserId>)
    ensures var step := Notify(s, adminId, scraped, order);
      && (step.outcome.Completed? <==> AllKnown(s.products) && DistinctNames(s.products))
      && (step.outcome.Completed? ==> step.store == s.(products := scraped))
      && (step.outcome.Threw? ==> step.store == s && step.sent == [])
  {
    OldAvailabilitySpec(s.products);
  }

  /**
   * In a completed cycle, with the recipient set iterated in some order, the
   * admin and each subscriber get exactly one notice per changed product and
   * nobody else gets any; there are |changed| times |recipients| messages.
   */
  lemma NotifyFanOut(s: Store, adminId: UserId, scraped: seq<Product>, order: seq<UserId>, u: UserId)
    requires OldAvailability(s.products).Ok?
    requires IsEnumeration(order, Recipients(s.tokens, adminId))
    ensures var step := Notify(s, adminId, scraped, order);
      var changed := ChangedProducts(scraped, OldAvailability(s.products).value);
      && |step.sent| == |changed| * |Recipients(s.tokens, adminId)|
      && MessagesTo(step.sent, u)
         == if u == adminId || IsSubscriber(s.tokens, u) then Announcements(changed) else []
  {
    var changed := ChangedProducts(scraped, OldAvailability(s.products).value);
    EnumerationSize(order, Recipients(s.tokens, adminId));
    RecipientsMembers(s.tokens, adminId, u);
    FanOutTo(changed, order, u);
  }

  /**
   * Once the stored snapshot holds a product whose availability is unknown,
   * every cycle throws before the replacement and leaves the store as it is.
   */
  lemma NotifyStuckOnUnknown(s: Store, adminId: UserId, scraped: seq<Product>, order: seq<UserId>, i: nat)
    requires i < |s.products| && s.products[i].availability.None?
    ensures var step := Notify(s, adminId, scraped, order);
      step.outcome.Threw? && step.store == s && step.sent == []
  {
    OldAvailabilitySpec(s.products);
  }

  /**
   * A completed cycle stores the scrape as it is, including a product whose
   * availability could not be read; from then on the next cycle throws.
   */
  lemma NotifyStoresUnknown(s: Store, adminId: UserId, scraped: seq<Product>, order: seq<UserId>,
                            next: seq<Product>, order': seq<UserId>, i: nat)
    requires i < |scraped| && scraped[i].availability.None?
    ensures var first := Notify(s, adminId, scraped, order);
      first.outcome.Completed? ==>
        var second := Notify(first.store, adminId, next, order');
        second.outcome.Threw? && second.store == first.store && second.sent == []
  {
    var first := Notify(s, adminId, scraped, order);
    if first.outcome.Completed? {
      NotifyReplacesSnapshot(s, adminId, scraped, order);
      NotifyStuckOnUnknown(first.store, adminId, next, order', i);
    }
  }

  /** A cycle that finds no change sends nothing and still replaces the snapshot. */
  lemma NotifyQuietWithoutChange(s: Store, adminId: UserId, scraped: seq<Product>, order: seq<UserId>)
    requires OldAvailability(s.products).Ok?
    requires ChangedProducts(scraped, OldAvailability(s.products).value) == []
    ensures Notify(s, adminId, scraped, order) == Step(s.(products := scraped), [], Completed)
  {
  }

  /**
   * The diff on a small snapshot: A flipped to available; B was available
   * already; D is new. A stored product with an unknown availability (C)
   * makes the lookup throw instead of being skipped.
   */
  lemma DiffExample()
    ensures var a := Product("A", Some(false), "a");
      var b := Product("B", Some(true), "b");
      var c := Product("C", None, "c");
      var scraped := [Product("A", Some(true), "a"), Product("B", Some(true), "b"),
                    Product("C", Some(true), "c"), Product("D", Some(true), "d")];
      && OldAvailability([a, b, c]) == Err(NullMapValue)
      && OldAvailability([a, b]).Ok?
      && ChangedProducts(scraped, OldAvailability([a, b]).value) == [scraped[0]]
  {
    var a := Product("A", Some(false), "a");
    var b := Product("B", Some(true), "b");
    assert [a, b][1..] == [b] && [b][1..] == [];
    assert OldAvailability([a, b]) == CollectAvailability([b], map["A" := false]);
    assert "B" !in map["A" := false];
    assert CollectAvailability([b], map["A" := false]) == CollectAvailability([], map["A" := false]["B" := true]);
    assert OldAvailability([a, b]) == Ok(map["A" := false, "B" := true]);
    var previous := OldAvailability([a, b]).value;
    var scraped := [Product("A", Some(true), "a"), Product("B", Some(true), "b"),
                  Product("C", Some(true), "c"), Product("D", Some(true), "d")];
    assert "C" !in previous && "D" !in previous;
    assert scraped[1..][1..][1..][1..] == [];
  }
}
