/**
 * The purchase-restriction rules of the buy service: each requested line item
 * whose product exists is checked against four rules in a fixed order, and the
 * first failure of the first failing line item is the verdict.
 */
module Validation {
  import opened Inventory

  /** The four reasons a purchase is refused. */
  datatype Rejection = NotAvailable | ExceedsInventory | BelowMinimum | ExceedsMaximum

  datatype Verdict = Valid | Invalid(reason: Rejection)

  /** The message the service answers with for each reason. Every message is
      non-blank: its last character is not whitespace. */
  function Message(r: Rejection): (s: string)
    ensures |s| > 0 && !IsWhitespace(s[|s| - 1])
  {
    match r
    case NotAvailable => "The product is not available"
    case ExceedsInventory => "The amount requested is not in the inventory"
    case BelowMinimum => "The amount requested doesn't have the minimum to buy"
    case ExceedsMaximum => "The amount requested exceeds the maximum allowed per buy"
  }

  /** The string the validator returns: empty when valid, otherwise the reason's message. */
  function Text(v: Verdict): (s: string)
    ensures s == "" <==> v == Valid
  {
    match v
    case Valid => ""
    case Invalid(r) => Message(r)
  }

  predicate IsWhitespace(c: char)
  {
    c == ' ' || c == '\t' || c == '\n' || c == '\r' || c == '\U{000C}' || c == '\U{000B}'
  }

  /** A string that is empty or made of whitespace only. */
  predicate IsBlank(s: string): (b: bool)
    ensures s == "" ==> b
    ensures b && |s| > 0 ==> IsWhitespace(s[|s| - 1])
  {
    forall i | 0 <= i < |s| :: IsWhitespace(s[i])
  }

  /** The returned string is blank exactly when the purchase is valid, and each
      reason has its own message, so the caller can tell the verdict from the text. */
  lemma BlankIffValid(v: Verdict)
    ensures IsBlank(Text(v)) <==> v == Valid
    ensures forall w: Verdict :: Text(w) == Text(v) ==> w == v
  {
    if v.Invalid? {
      // The message's last character is not whitespace (Message's contract).
      var t := Text(v);
      assert !IsWhitespace(t[|t| - 1]);
    }
  }

  /** Each rule judged on its own, without regard to the others. */
  predicate Violates(p: Product, q: int, r: Rejection)
  {
    match r
    case NotAvailable => !p.enabled
    case ExceedsInventory => q > p.inInventory
    case BelowMinimum => q < p.min
    case ExceedsMaximum => q > p.max
  }

  /** The position of a rule in the order in which the rules are checked. */
  function Rank(r: Rejection): nat
  {
    match r
    case NotAvailable => 0
    case ExceedsInventory => 1
    case BelowMinimum => 2
    case ExceedsMaximum => 3
  }

  /** A line item that passes every rule. */
  predicate Acceptable(p: Product, q: int)
  {
    p.enabled && q <= p.inInventory && p.min <= q <= p.max
  }

  /** Passing every rule is the same as breaking none of them. */
  lemma AcceptableIffNoRuleBroken(p: Product, q: int)
    ensures Acceptable(p, q) <==> forall rule: Rejection :: !Violates(p, q, rule)
  {
    if !Acceptable(p, q) {
      assert Violates(p, q, NotAvailable) || Violates(p, q, ExceedsInventory)
        || Violates(p, q, BelowMinimum) || Violates(p, q, ExceedsMaximum);
    }
  }

  /** The checks applied to one found product, first failure wins. */
  function CheckItem(p: Product, q: int): (r: Option<Rejection>)
    ensures r == None <==> Acceptable(p, q)
    ensures r.Some? ==> Violates(p, q, r.value)
    ensures r.Some? ==> forall rule: Rejection | Rank(rule) < Rank(r.value) :: !Violates(p, q, rule)
  {
    if !p.enabled then Some(NotAvailable)
    else if q > p.inInventory then Some(ExceedsInventory)
    else if q < p.min then Some(BelowMinimum)
    else if q > p.max then Some(ExceedsMaximum)
    else None
  }

  /** The check of one line item against the store; a missing product is skipped. */
  function Check(store: Store, item: LineItem): (r: Option<Rejection>)
    ensures r == None <==> item.productId !in store || Acceptable(store[item.productId], item.quantity)
  {
    if item.productId in store then CheckItem(store[item.productId], item.quantity) else None
  }

  /** The validator: the first failing line item, in request order, decides. */
  function Validate(store: Store, items: seq<LineItem>): (v: Verdict)
    ensures v.Invalid? ==> exists i | 0 <= i < |items| :: Check(store, items[i]) == Some(v.reason)
  {
    if items == [] then Valid
    else match Check(store, items[0])
      case Some(r) => Invalid(r)
      case None =>
        assert forall i | 0 <= i < |items| - 1 :: items[1..][i] == items[i + 1];
        Validate(store, items[1..])
  }

  /** A purchase is valid exactly when every line item whose product exists passes every rule. */
  lemma {:induction false} ValidIff(store: Store, items: seq<LineItem>)
    ensures Validate(store, items) == Valid <==>
      forall i | 0 <= i < |items| && items[i].productId in store ::
        Acceptable(store[items[i].productId], items[i].quantity)
  {
    if items != [] {
      ValidIff(store, items[1..]);
      forall i | 1 <= i < |items| ensures items[i] == items[1..][i - 1] { }
    }
  }

  /** Validation of a concatenation: the second part is only examined when the first is valid. */
  lemma {:induction false} ValidateAppend(store: Store, a: seq<LineItem>, b: seq<LineItem>)
    ensures Validate(store, a + b) == if Validate(store, a) == Valid then Validate(store, b) else Validate(store, a)
  {
    if a == [] {
      assert a + b == b;
    } else {
      assert (a + b)[0] == a[0];
      assert (a + b)[1..] == a[1..] + b;
      if Check(store, a[0]) == None {
        ValidateAppend(store, a[1..], b);
        assert Validate(store, a) == Validate(store, a[1..]);
        assert Validate(store, a + b) == Validate(store, a[1..] + b);
      } else {
        assert Validate(store, a) == Invalid(Check(store, a[0]).value);
        assert Validate(store, a + b) == Invalid(Check(store, a[0]).value);
      }
    }
  }

  /** Once a prefix fails, whatever follows it is not examined. */
  lemma LaterItemsIgnored(store: Store, a: seq<LineItem>, b: seq<LineItem>, c: seq<LineItem>)
    requires Validate(store, a) != Valid
    ensures Validate(store, a + b) == Validate(store, a + c) == Validate(store, a)
  {
    ValidateAppend(store, a, b);
    ValidateAppend(store, a, c);
  }

  /** A failing verdict names the first failing line item: every item before it is acceptable. */
  lemma {:induction false} FirstFailure(store: Store, items: seq<LineItem>) returns (i: nat)
    requires Validate(store, items) != Valid
    ensures i < |items| && items[i].productId in store
    ensures Check(store, items[i]) == Some(Validate(store, items).reason)
    ensures Validate(store, items[..i]) == Valid
    ensures forall j | 0 <= j < i && items[j].productId in store ::
      Acceptable(store[items[j].productId], items[j].quantity)
  {
    if Check(store, items[0]).Some? {
      i := 0;
      assert items[..0] == [];
    } else {
      var k := FirstFailure(store, items[1..]);
      i := k + 1;
      assert items[..i] == [items[0]] + items[1..][..k];
      ValidateAppend(store, [items[0]], items[1..][..k]);
      assert Validate(store, [items[0]]) == Validate(store, []);
    }
    ValidIff(store, items[..i]);
    assert forall j | 0 <= j < i :: items[..i][j] == items[j];
  }

  /** Conversely, the first failing line item decides the verdict. */
  lemma FailureAt(store: Store, items: seq<LineItem>, i: nat, r: Rejection)
    requires i < |items|
    requires Validate(store, items[..i]) == Valid
    requires Check(store, items[i]) == Some(r)
    ensures Validate(store, items) == Invalid(r)
  {
    assert items == items[..i] + items[i..];
    ValidateAppend(store, items[..i], items[i..]);
  }

  /** Extending a valid prefix by one passing line item keeps it valid. */
  lemma ValidStep(store: Store, items: seq<LineItem>, i: nat)
    requires i < |items|
    requires Validate(store, items[..i]) == Valid
    requires Check(store, items[i]) == None
    ensures Validate(store, items[..i + 1]) == Valid
  {
    assert items[..i + 1] == items[..i] + [items[i]];
    ValidateAppend(store, items[..i], [items[i]]);
  }

  /** A line item naming a missing product can be dropped without changing the verdict. */
  lemma SkipsUnknown(store: Store, a: seq<LineItem>, x: LineItem, b: seq<LineItem>)
    requires x.productId !in store
    ensures Validate(store, a + [x] + b) == Validate(store, a + b)
  {
    assert a + [x] + b == a + ([x] + b);
    ValidateAppend(store, a, [x] + b);
    ValidateAppend(store, a, b);
    assert ([x] + b)[1..] == b;
  }

  /** The bounds are inclusive: min, max and the stock itself are allowed quantities,
      one below min or one above max is not. */
  lemma BoundsInclusive(p: Product)
    requires p.enabled && p.min <= p.max
    ensures p.min <= p.inInventory ==> CheckItem(p, p.min) == None
    ensures p.max <= p.inInventory ==> CheckItem(p, p.max) == None
    ensures p.min <= p.inInventory <= p.max ==> CheckItem(p, p.inInventory) == None
    ensures p.min - 1 <= p.inInventory ==> CheckItem(p, p.min - 1) == Some(BelowMinimum)
    ensures p.max + 1 <= p.inInventory ==> CheckItem(p, p.max + 1) == Some(ExceedsMaximum)
  {
  }
}
