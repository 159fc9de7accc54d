/** The browser-side cart: a list of line items identified by (product id, size),
    changed in place by the three cart actions of the storefront page. */
module CartStore {

  /** One cart line. `price` is the unit price in integer cents. */
  datatype CartItem = CartItem(id: int, name: string, price: int, quantity: int, size: string, image: string)

  /** The identity of a line. */
  function Key(item: CartItem): (int, string) { (item.id, item.size) }

  predicate Matches(item: CartItem, id: int, size: string) {
    Key(item) == (id, size)
  }

  predicate InCart(s: seq<CartItem>, id: int, size: string) {
    exists j :: 0 <= j < |s| && Matches(s[j], id, size)
  }

  /** No two lines share a key. */
  ghost predicate UniqueKeys(s: seq<CartItem>) {
    forall i, j :: 0 <= i < j < |s| ==> Key(s[i]) != Key(s[j])
  }

  /** Every line holds at least one unit. */
  ghost predicate AllPositive(s: seq<CartItem>) {
    forall i :: 0 <= i < |s| ==> s[i].quantity >= 1
  }

  /** Position of the first line with key (id, size), or |s| when there is none;
      this is what `cart.find` selects. */
  function FirstMatch(s: seq<CartItem>, id: int, size: string): (k: nat)
    ensures k <= |s|
    ensures k < |s| ==> Matches(s[k], id, size)
    ensures forall j :: 0 <= j < k ==> !Matches(s[j], id, size)
  {
    if s == [] then 0
    else if Matches(s[0], id, size) then 0
    else 1 + FirstMatch(s[1..], id, size)
  }

  lemma FirstMatchIsUnique(s: seq<CartItem>, id: int, size: string, k: nat)
    requires k <= |s|
    requires k < |s| ==> Matches(s[k], id, size)
    requires forall j :: 0 <= j < k ==> !Matches(s[j], id, size)
    ensures k == FirstMatch(s, id, size)
  {
  }

  /** The cart after `addItemToCart`: the first matching line gains one unit (its name,
      price and image stay as they were); with no matching line a new line of quantity 1
      is appended. */
  function Added(s: seq<CartItem>, id: int, name: string, price: int, size: string, image: string): seq<CartItem>
  {
    var k := FirstMatch(s, id, size);
    if k < |s| then s[k := s[k].(quantity := s[k].quantity + 1)]
    else s + [CartItem(id, name, price, 1, size, image)]
  }

  /** The cart after `removeItemFromCart`: the lines whose key differs from (id, size). */
  function Removed(s: seq<CartItem>, id: int, size: string): (r: seq<CartItem>)
    ensures |r| <= |s|
    ensures forall x :: x in r <==> x in s && !Matches(x, id, size)
  {
    if s == [] then []
    else (if Matches(s[0], id, size) then [] else [s[0]]) + Removed(s[1..], id, size)
  }

  /** The cart after `updateItemQuantity`. */
  function Updated(s: seq<CartItem>, id: int, size: string, action: string): seq<CartItem>
  {
    var k := FirstMatch(s, id, size);
    if k == |s| then s
    else if action == "increase" then s[k := s[k].(quantity := s[k].quantity + 1)]
    else if action == "decrease" then
      (if s[k].quantity - 1 <= 0 then Removed(s, id, size)
       else s[k := s[k].(quantity := s[k].quantity - 1)])
    else s
  }

  function Quantity(item: CartItem): int { item.quantity }

  /** The price of a line in cents: unit price times quantity. */
  function LineTotal(item: CartItem): int { item.price * item.quantity }

  /** The sum of f over the lines, from the first line to the last. */
  function SumOf(s: seq<CartItem>, f: CartItem -> int): int {
    if s == [] then 0 else f(s[0]) + SumOf(s[1..], f)
  }

  /** The number shown in the cart badge: the total of the quantities. */
  function ItemCount(s: seq<CartItem>): int { SumOf(s, Quantity) }

  /** The cart total in cents. */
  function Total(s: seq<CartItem>): int { SumOf(s, LineTotal) }

  // ---------------------------------------------------------------------------
  // Sums

  lemma {:induction false} SumOfAppend(a: seq<CartItem>, b: seq<CartItem>, f: CartItem -> int)
    ensures SumOf(a + b, f) == SumOf(a, f) + SumOf(b, f)
  {
    if a == [] {
      assert a + b == b;
    } else {
      assert (a + b)[1..] == a[1..] + b;
      SumOfAppend(a[1..], b, f);
    }
  }

  lemma SumOfSnoc(s: seq<CartItem>, i: nat, f: CartItem -> int)
    requires i < |s|
    ensures SumOf(s[..i + 1], f) == SumOf(s[..i], f) + f(s[i])
  {
    assert s[..i + 1] == s[..i] + [s[i]];
    SumOfAppend(s[..i], [s[i]], f);
    assert [s[i]][1..] == [];
  }

  lemma {:induction false} SumOfUpdate(s: seq<CartItem>, k: nat, x: CartItem, f: CartItem -> int)
    requires k < |s|
    ensures SumOf(s[k := x], f) == SumOf(s, f) - f(s[k]) + f(x)
  {
    if k > 0 {
      assert s[k := x][1..] == s[1..][k - 1 := x];
      SumOfUpdate(s[1..], k - 1, x, f);
    }
  }

  /** Removing a key that is not in the cart changes nothing. */
  lemma {:induction false} RemovedAbsent(s: seq<CartItem>, id: int, size: string)
    requires !InCart(s, id, size)
    ensures Removed(s, id, size) == s
  {
    if s != [] {
      assert !Matches(s[0], id, size);
      assert !InCart(s[1..], id, size) by {
        forall j | 0 <= j < |s[1..]| ensures !Matches(s[1..][j], id, size) {
          assert s[1..][j] == s[j + 1];
        }
      }
      RemovedAbsent(s[1..], id, size);
    }
  }

  /** With unique keys, removing the line at position k lowers any sum by that line's share. */
  lemma {:induction false} SumOfRemoved(s: seq<CartItem>, k: nat, f: CartItem -> int)
    requires UniqueKeys(s)
    requires k < |s|
    ensures SumOf(Removed(s, s[k].id, s[k].size), f) == SumOf(s, f) - f(s[k])
  {
    var id, size := s[k].id, s[k].size;
    UniqueKeysTail(s);
    if k == 0 {
      assert !InCart(s[1..], id, size) by {
        forall j | 0 <= j < |s[1..]| ensures !Matches(s[1..][j], id, size) {
          assert Key(s[0]) != Key(s[j + 1]);
        }
      }
      RemovedAbsent(s[1..], id, size);
      assert Removed(s, id, size) == s[1..];
    } else {
      assert Key(s[0]) != Key(s[k]);
      assert s[1..][k - 1] == s[k];
      SumOfRemoved(s[1..], k - 1, f);
    }
  }

  // ---------------------------------------------------------------------------
  // Invariants: unique keys and positive quantities

  lemma UniqueKeysTail(s: seq<CartItem>)
    requires UniqueKeys(s) && s != []
    ensures UniqueKeys(s[1..])
  {
    forall i, j | 0 <= i < j < |s[1..]| ensures Key(s[1..][i]) != Key(s[1..][j]) {
      assert s[1..][i] == s[i + 1] && s[1..][j] == s[j + 1];
    }
  }

  lemma {:induction false} RemovedKeepsUniqueKeys(s: seq<CartItem>, id: int, size: string)
    requires UniqueKeys(s)
    ensures UniqueKeys(Removed(s, id, size))
  {
    if s != [] {
      UniqueKeysTail(s);
      RemovedKeepsUniqueKeys(s[1..], id, size);
      var rest := Removed(s[1..], id, size);
      if !Matches(s[0], id, size) {
        var r := [s[0]] + rest;
        assert Removed(s, id, size) == r;
        forall i, j | 0 <= i < j < |r| ensures Key(r[i]) != Key(r[j]) {
          if i == 0 {
            assert r[j] == rest[j - 1];
            assert rest[j - 1] in s[1..];
            var m :| 0 <= m < |s[1..]| && s[1..][m] == rest[j - 1];
            assert s[1..][m] == s[m + 1];
            assert Key(s[0]) != Key(s[m + 1]);
          } else {
            assert r[i] == rest[i - 1] && r[j] == rest[j - 1];
          }
        }
      }
    }
  }

  lemma RemovedKeepsPositive(s: seq<CartItem>, id: int, size: string)
    requires AllPositive(s)
    ensures AllPositive(Removed(s, id, size))
  {
    var r := Removed(s, id, size);
    forall i | 0 <= i < |r| ensures r[i].quantity >= 1 {
      assert r[i] in s;
    }
  }

  /** Replacing a line by one with the same key keeps keys unique. */
  lemma SameKeyUpdateKeepsUniqueKeys(s: seq<CartItem>, k: nat, x: CartItem)
    requires UniqueKeys(s) && k < |s| && Key(x) == Key(s[k])
    ensures UniqueKeys(s[k := x])
  {
    var t := s[k := x];
    forall i, j | 0 <= i < j < |t| ensures Key(t[i]) != Key(t[j]) {
      assert Key(t[i]) == Key(s[i]) && Key(t[j]) == Key(s[j]);
    }
  }

  /** If every line has a distinct key before an add, every line does after. */
  lemma AddKeepsInvariants(s: seq<CartItem>, id: int, name: string, price: int, size: string, image: string)
    ensures UniqueKeys(s) ==> UniqueKeys(Added(s, id, name, price, size, image))
    ensures AllPositive(s) ==> AllPositive(Added(s, id, name, price, size, image))
  {
    var k := FirstMatch(s, id, size);
    if k < |s| {
      if UniqueKeys(s) {
        SameKeyUpdateKeepsUniqueKeys(s, k, s[k].(quantity := s[k].quantity + 1));
      }
    } else {
      var r := Added(s, id, name, price, size, image);
      if UniqueKeys(s) {
        forall i, j | 0 <= i < j < |r| ensures Key(r[i]) != Key(r[j]) {
          if j == |s| {
            assert !Matches(s[i], id, size);
          } else {
            assert r[i] == s[i] && r[j] == s[j];
          }
        }
      }
    }
  }

  lemma UpdateKeepsInvariants(s: seq<CartItem>, id: int, size: string, action: string)
    ensures UniqueKeys(s) ==> UniqueKeys(Updated(s, id, size, action))
    ensures AllPositive(s) ==> AllPositive(Updated(s, id, size, action))
  {
    var k := FirstMatch(s, id, size);
    if k < |s| {
      if action == "increase" {
        if UniqueKeys(s) {
          SameKeyUpdateKeepsUniqueKeys(s, k, s[k].(quantity := s[k].quantity + 1));
        }
      } else if action == "decrease" {
        if s[k].quantity - 1 <= 0 {
          if UniqueKeys(s) { RemovedKeepsUniqueKeys(s, id, size); }
          if AllPositive(s) { RemovedKeepsPositive(s, id, size); }
        } else if UniqueKeys(s) {
          SameKeyUpdateKeepsUniqueKeys(s, k, s[k].(quantity := s[k].quantity - 1));
        }
      }
    }
  }

  // ---------------------------------------------------------------------------
  // What each action does to the lines

  /** Adding a key already present bumps the first line with that key by one unit;
      the length and every other line are unchanged. */
  lemma AddExisting(s: seq<CartItem>, id: int, name: string, price: int, size: string, image: string, j: nat)
    requires j < |s| && Matches(s[j], id, size)
    requires forall i :: 0 <= i < j ==> !Matches(s[i], id, size)
    ensures var r := Added(s, id, name, price, size, image);
      |r| == |s| && r[j] == s[j].(quantity := s[j].quantity + 1) &&
      forall i :: 0 <= i < |s| && i != j ==> r[i] == s[i]
  {
    FirstMatchIsUnique(s, id, size, j);
  }

  /** Adding a key not yet present appends exactly one line of quantity 1. */
  lemma AddNew(s: seq<CartItem>, id: int, name: string, price: int, size: string, image: string)
    requires !InCart(s, id, size)
    ensures var r := Added(s, id, name, price, size, image);
      |r| == |s| + 1 && r[..|s|] == s && r[|s|] == CartItem(id, name, price, 1, size, image)
  {
  }

  /** Removing keeps exactly the lines with another key, in their original order:
      removal distributes over concatenation. */
  lemma {:induction false} RemovedConcat(a: seq<CartItem>, b: seq<CartItem>, id: int, size: string)
    ensures Removed(a + b, id, size) == Removed(a, id, size) + Removed(b, id, size)
  {
    if a == [] {
      assert a + b == b;
    } else {
      var ab := a + b;
      assert ab[0] == a[0] && ab[1..] == a[1..] + b;
      RemovedConcat(a[1..], b, id, size);
    }
  }

  /** Changing a line with the matching key does not change what removal leaves. */
  lemma {:induction false} RemovedIgnoresMatchingLine(s: seq<CartItem>, k: nat, x: CartItem, id: int, size: string)
    requires k < |s| && Matches(s[k], id, size) && Matches(x, id, size)
    ensures Removed(s[k := x], id, size) == Removed(s, id, size)
  {
    if k > 0 {
      assert s[k := x][0] == s[0];
      assert s[k := x][1..] == s[1..][k - 1 := x];
      RemovedIgnoresMatchingLine(s[1..], k - 1, x, id, size);
    } else {
      assert s[k := x][1..] == s[1..];
    }
  }

  /** Updating a key that is not in the cart changes nothing. */
  lemma UpdateAbsent(s: seq<CartItem>, id: int, size: string, action: string)
    requires !InCart(s, id, size)
    ensures Updated(s, id, size, action) == s
  {
  }

  /** On the first line with the key, of quantity q: "increase" makes it q + 1;
      "decrease" makes it q - 1 when q > 1 and removes the key when q <= 1;
      any other action changes nothing. */
  lemma UpdateLine(s: seq<CartItem>, id: int, size: string, action: string, j: nat)
    requires j < |s| && Matches(s[j], id, size)
    requires forall i :: 0 <= i < j ==> !Matches(s[i], id, size)
    ensures var r := Updated(s, id, size, action);
      var q := s[j].quantity;
      (action == "increase" ==> r == s[j := s[j].(quantity := q + 1)]) &&
      (action == "decrease" && q > 1 ==> r == s[j := s[j].(quantity := q - 1)]) &&
      (action == "decrease" && q <= 1 ==> r == Removed(s, id, size) && !InCart(r, id, size)) &&
      (action != "increase" && action != "decrease" ==> r == s)
  {
    FirstMatchIsUnique(s, id, size, j);
    var r := Removed(s, id, size);
    forall m | 0 <= m < |r| ensures !Matches(r[m], id, size) {
      assert r[m] in r;
    }
  }

  /** The badge count rises by one on every add. */
  lemma AddCountsOne(s: seq<CartItem>, id: int, name: string, price: int, size: string, image: string)
    ensures ItemCount(Added(s, id, name, price, size, image)) == ItemCount(s) + 1
  {
    var k := FirstMatch(s, id, size);
    if k < |s| {
      SumOfUpdate(s, k, s[k].(quantity := s[k].quantity + 1), Quantity);
    } else {
      var x := CartItem(id, name, price, 1, size, image);
      SumOfAppend(s, [x], Quantity);
      assert [x][1..] == [];
    }
  }

  /** With distinct keys and quantities of at least one, "increase" on a present key adds
      one to the badge count and "decrease" takes one away, whether or not the line goes. */
  lemma UpdateCountsOne(s: seq<CartItem>, id: int, size: string, action: string)
    requires UniqueKeys(s) && AllPositive(s)
    requires InCart(s, id, size)
    ensures action == "increase" ==> ItemCount(Updated(s, id, size, action)) == ItemCount(s) + 1
    ensures action == "decrease" ==> ItemCount(Updated(s, id, size, action)) == ItemCount(s) - 1
  {
    var k := FirstMatch(s, id, size);
    var q := s[k].quantity;
    if action == "increase" {
      SumOfUpdate(s, k, s[k].(quantity := q + 1), Quantity);
    } else if action == "decrease" {
      if q - 1 <= 0 {
        assert q == 1;
        SumOfRemoved(s, k, Quantity);
      } else {
        SumOfUpdate(s, k, s[k].(quantity := q - 1), Quantity);
      }
    }
  }

  /** The module-level `cart` array. */
  class Cart {
    var items: seq<CartItem>

    /** The cart as restored from the saved snapshot. */
    constructor (saved: seq<CartItem>)
      ensures items == saved
    {
      items := saved;
    }

    /** `cart.find` by key: the first line with key (id, size), or |items| if none. */
    method Find(id: int, size: string) returns (k: nat)
      ensures k <= |items|
      ensures k < |items| ==> Matches(items[k], id, size)
      ensures forall j :: 0 <= j < k ==> !Matches(items[j], id, size)
    {
      k := 0;
      while k < |items| && !Matches(items[k], id, size)
        invariant k <= |items|
        invariant forall j :: 0 <= j < k ==> !Matches(items[j], id, size)
      {
        k := k + 1;
      }
    }

    method AddItem(id: int, name: string, price: int, size: string, image: string)
      modifies this
      ensures items == Added(old(items), id, name, price, size, image)
      ensures UniqueKeys(old(items)) ==> UniqueKeys(items)
      ensures AllPositive(old(items)) ==> AllPositive(items)
      ensures ItemCount(items) == ItemCount(old(items)) + 1
    {
      AddKeepsInvariants(items, id, name, price, size, image);
      AddCountsOne(items, id, name, price, size, image);
      var k := Find(id, size);
      FirstMatchIsUnique(items, id, size, k);
      if k < |items| {
        items := items[k := items[k].(quantity := items[k].quantity + 1)];
      } else {
        items := items + [CartItem(id, name, price, 1, size, image)];
      }
    }

    method RemoveItem(id: int, size: string)
      modifies this
      ensures items == Removed(old(items), id, size)
      ensures !InCart(items, id, size)
      ensures UniqueKeys(old(items)) ==> UniqueKeys(items)
      ensures AllPositive(old(items)) ==> AllPositive(items)
    {
      if UniqueKeys(items) { RemovedKeepsUniqueKeys(items, id, size); }
      if AllPositive(items) { RemovedKeepsPositive(items, id, size); }
      items := Removed(items, id, size);
      forall m | 0 <= m < |items| ensures !Matches(items[m], id, size) {
        assert items[m] in items;
      }
    }

    method UpdateQuantity(id: int, size: string, action: string)
      modifies this
      ensures items == Updated(old(items), id, size, action)
      ensures UniqueKeys(old(items)) ==> UniqueKeys(items)
      ensures AllPositive(old(items)) ==> AllPositive(items)
    {
      UpdateKeepsInvariants(items, id, size, action);
      var k := Find(id, size);
      FirstMatchIsUnique(items, id, size, k);
      if k == |items| {
        return;
      }
      if action == "increase" {
        items := items[k := items[k].(quantity := items[k].quantity + 1)];
      } else if action == "decrease" {
        var line := items[k].(quantity := items[k].quantity - 1);
        RemovedIgnoresMatchingLine(items, k, line, id, size);
        items := items[k := line];
        if line.quantity <= 0 {
          RemoveItem(id, size);
          return;
        }
      }
    }

    /** `cart.reduce((sum, item) => sum + item.quantity, 0)`: the badge count. */
    method CountItems() returns (n: int)
      ensures n == ItemCount(items)
      ensures AllPositive(items) ==> n >= |items|
    {
      n := 0;
      for i := 0 to |items|
        invariant n == ItemCount(items[..i])
        invariant AllPositive(items) ==> n >= i
      {
        SumOfSnoc(items, i, Quantity);
        n := n + items[i].quantity;
      }
      assert items[..|items|] == items;
    }

    /** The running total of unit price times quantity over the lines, in cents. */
    method CartTotal() returns (t: int)
      ensures t == Total(items)
      ensures (forall j :: 0 <= j < |items| ==> items[j].price >= 0 && items[j].quantity >= 0) ==> t >= 0
    {
      t := 0;
      for i := 0 to |items|
        invariant t == Total(items[..i])
        invariant (forall j :: 0 <= j < |items| ==> items[j].price >= 0 && items[j].quantity >= 0) ==> t >= 0
      {
        SumOfSnoc(items, i, LineTotal);
        t := t + items[i].price * items[i].quantity;
      }
      assert items[..|items|] == items;
    }
  }
}
