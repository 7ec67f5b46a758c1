/** The checkout step of the cart page: the cart rows are grouped by
    restaurant into an object keyed by the restaurant id's decimal string, and
    one order is posted per key, in the object's key order, with the key read
    back by `parseInt`. */
module CartPage {
  import opened Wrappers

  datatype CartRow = CartRow(
    cartItemId: nat,
    restaurantId: nat,
    dishId: nat,
    dishName: string,
    quantity: int,
    priceEach: real)

  /** One entry of a posted order's `items`. */
  datatype OrderLine = OrderLine(dishId: nat, quantity: int, price: real)

  /** The body of one `POST /orders`; `None` stands for `NaN`. */
  datatype OrderPost = OrderPost(restaurantId: Option<nat>, items: seq<OrderLine>)

  datatype Checkout = CartEmpty | Post(posts: seq<OrderPost>)

  function LineOf(row: CartRow): OrderLine {
    OrderLine(row.dishId, row.quantity, row.priceEach)
  }

  // ---------------------------------------------------------------------
  // Decimal keys and parseInt

  predicate IsDigit(c: char) {
    '0' <= c <= '9'
  }

  function DigitChar(d: nat): (c: char)
    requires d < 10
    ensures IsDigit(c)
  {
    "0123456789"[d]
  }

  function DigitValue(c: char): (d: nat)
    requires IsDigit(c)
    ensures d < 10
  {
    (c as int - '0' as int) as nat
  }

  /** The decimal string JavaScript uses for a non-negative integer key. */
  function DecimalString(n: nat): (s: string)
    ensures |s| >= 1
    ensures forall k :: 0 <= k < |s| ==> IsDigit(s[k])
  {
    if n < 10 then [DigitChar(n)] else DecimalString(n / 10) + [DigitChar(n % 10)]
  }

  /** The number of leading decimal digits of `s`. */
  function LeadingDigits(s: string): (n: nat)
    ensures n <= |s|
    ensures forall k :: 0 <= k < n ==> IsDigit(s[k])
    ensures n < |s| ==> !IsDigit(s[n])
  {
    if |s| == 0 || !IsDigit(s[0]) then 0 else 1 + LeadingDigits(s[1..])
  }

  /** The value of a string of decimal digits, most significant first. */
  function DigitsValue(ds: string): nat
    requires forall k :: 0 <= k < |ds| ==> IsDigit(ds[k])
  {
    if |ds| == 0 then 0 else DigitsValue(ds[..|ds| - 1]) * 10 + DigitValue(ds[|ds| - 1])
  }

  /** `parseInt(s, 10)` on a string without leading blanks or sign: the value
      of the leading digits, or `None` (NaN) when there are none. */
  function ParseInt(s: string): (r: Option<nat>)
    ensures r.None? <==> |s| == 0 || !IsDigit(s[0])
  {
    var n := LeadingDigits(s);
    if n == 0 then None else Some(DigitsValue(s[..n]))
  }

  lemma {:induction false} DigitsValueOfDecimal(n: nat)
    ensures DigitsValue(DecimalString(n)) == n
    decreases n
  {
    var s := DecimalString(n);
    if n < 10 {
      assert s[..0] == [];
    } else {
      DigitsValueOfDecimal(n / 10);
      assert s[..|s| - 1] == DecimalString(n / 10);
    }
  }

  /** Reading a key back with parseInt gives the restaurant id it was made
      from. */
  lemma ParseIntOfDecimal(n: nat)
    ensures ParseInt(DecimalString(n)) == Some(n)
  {
    var s := DecimalString(n);
    assert LeadingDigits(s) == |s| by { LeadingDigitsOfDigits(s); }
    assert s[..|s|] == s;
    DigitsValueOfDecimal(n);
  }

  lemma {:induction false} LeadingDigitsOfDigits(s: string)
    requires forall k :: 0 <= k < |s| ==> IsDigit(s[k])
    ensures LeadingDigits(s) == |s|
    decreases |s|
  {
    if |s| > 0 {
      LeadingDigitsOfDigits(s[1..]);
    }
  }

  // ---------------------------------------------------------------------
  // Grouping

  /** Some row of the cart belongs to restaurant `k`. */
  predicate Mentions(rows: seq<CartRow>, k: nat) {
    exists j :: 0 <= j < |rows| && rows[j].restaurantId == k
  }

  /** Reference: the lines of restaurant `k`'s rows, in cart order. */
  function LinesOf(rows: seq<CartRow>, k: nat): seq<OrderLine> {
    if |rows| == 0 then []
    else (if rows[0].restaurantId == k then [LineOf(rows[0])] else []) + LinesOf(rows[1..], k)
  }

  lemma {:induction false} LinesOfSnoc(rows: seq<CartRow>, row: CartRow, k: nat)
    ensures LinesOf(rows + [row], k)
            == LinesOf(rows, k) + (if row.restaurantId == k then [LineOf(row)] else [])
    decreases |rows|
  {
    if |rows| == 0 {
      assert rows + [row] == [row];
      assert [row][1..] == [];
    } else {
      var all := rows + [row];
      var head := if rows[0].restaurantId == k then [LineOf(rows[0])] else [];
      var tail := if row.restaurantId == k then [LineOf(row)] else [];
      assert all[0] == rows[0] && all[1..] == rows[1..] + [row];
      LinesOfSnoc(rows[1..], row, k);
      assert LinesOf(all, k) == head + (LinesOf(rows[1..], k) + tail);
      assert LinesOf(rows, k) == head + LinesOf(rows[1..], k);
    }
  }

  lemma {:induction false} LinesOfNonEmpty(rows: seq<CartRow>, k: nat)
    ensures |LinesOf(rows, k)| > 0 <==> Mentions(rows, k)
    decreases |rows|
  {
    if |rows| > 0 {
      LinesOfNonEmpty(rows[1..], k);
      if Mentions(rows[1..], k) {
        var j :| 0 <= j < |rows[1..]| && rows[1..][j].restaurantId == k;
        assert rows[j + 1].restaurantId == k;
      }
      if Mentions(rows, k) && rows[0].restaurantId != k {
        var j :| 0 <= j < |rows| && rows[j].restaurantId == k;
        assert rows[1..][j - 1].restaurantId == k;
      }
    }
  }

  /** The `forEach` step: the rows folded left to right into groups keyed by
      restaurant, each group's lines in cart order. */
  function Group(rows: seq<CartRow>): map<nat, seq<OrderLine>>
    decreases |rows|
  {
    if |rows| == 0 then map[]
    else
      var g := Group(rows[..|rows| - 1]);
      var row := rows[|rows| - 1];
      var k := row.restaurantId;
      g[k := (if k in g then g[k] else []) + [LineOf(row)]]
  }

  lemma MentionsSnoc(rows: seq<CartRow>, k: nat)
    requires |rows| > 0
    ensures Mentions(rows, k)
            <==> Mentions(rows[..|rows| - 1], k) || rows[|rows| - 1].restaurantId == k
  {
    var init := rows[..|rows| - 1];
    if Mentions(init, k) {
      var j :| 0 <= j < |init| && init[j].restaurantId == k;
      assert rows[j].restaurantId == k;
    }
    if Mentions(rows, k) && rows[|rows| - 1].restaurantId != k {
      var j :| 0 <= j < |rows| && rows[j].restaurantId == k;
      assert init[j].restaurantId == k;
    }
  }

  /** The grouping has a key exactly for each restaurant in the cart, and each
      group holds exactly that restaurant's lines, in cart order. */
  lemma {:induction false} GroupIsFilter(rows: seq<CartRow>)
    ensures forall k :: k in Group(rows) <==> Mentions(rows, k)
    ensures forall k :: k in Group(rows) ==> Group(rows)[k] == LinesOf(rows, k)
    decreases |rows|
  {
    if |rows| > 0 {
      var init := rows[..|rows| - 1];
      var row := rows[|rows| - 1];
      GroupIsFilter(init);
      assert rows == init + [row];
      forall k ensures k in Group(rows) <==> Mentions(rows, k) {
        MentionsSnoc(rows, k);
      }
      forall k | k in Group(rows) ensures Group(rows)[k] == LinesOf(rows, k) {
        LinesOfSnoc(init, row, k);
        if k == row.restaurantId && k !in Group(init) {
          LinesOfNonEmpty(init, k);
        }
      }
    }
  }

  // ---------------------------------------------------------------------
  // Key order

  /** Strictly increasing, hence without repetition. */
  predicate Ascending(xs: seq<nat>) {
    forall i, j :: 0 <= i < j < |xs| ==> xs[i] < xs[j]
  }

  /** Inserts `k` into an ascending sequence unless it is already there. */
  function Insert(xs: seq<nat>, k: nat): (r: seq<nat>)
    ensures forall x :: x in r <==> x in xs || x == k
    ensures Ascending(xs) ==> Ascending(r)
    decreases |xs|
  {
    if |xs| == 0 then [k]
    else if k < xs[0] then [k] + xs
    else if k == xs[0] then xs
    else
      var rest := Insert(xs[1..], k);
      var r := [xs[0]] + rest;
      assert Ascending(xs) ==> Ascending(r) by {
        if Ascending(xs) {
          assert Ascending(xs[1..]);
          forall x | x in rest ensures xs[0] < x {
            if x != k {
              var m :| 0 <= m < |xs[1..]| && xs[1..][m] == x;
              assert xs[m + 1] == x;
            }
          }
          forall i, j | 0 <= i < j < |r| ensures r[i] < r[j] {
            if i == 0 {
              assert r[j] == rest[j - 1] && r[j] in rest;
            } else {
              assert r[i] == rest[i - 1] && r[j] == rest[j - 1];
            }
          }
        }
      }
      r
  }

  /** The order of `Object.entries` on integer-like keys: ascending numeric
      order, each restaurant once. */
  function Keys(rows: seq<CartRow>): (r: seq<nat>)
    ensures Ascending(r)
    ensures forall k :: k in r <==> Mentions(rows, k)
    decreases |rows|
  {
    if |rows| == 0 then []
    else
      var r := Insert(Keys(rows[..|rows| - 1]), rows[|rows| - 1].restaurantId);
      assert forall k :: k in r <==> Mentions(rows, k) by {
        forall k ensures k in r <==> Mentions(rows, k) {
          MentionsSnoc(rows, k);
        }
      }
      r
  }

  // ---------------------------------------------------------------------
  // Checkout

  /** The post for key `k`: the key read back and the group under it. */
  function PostFor(rows: seq<CartRow>, k: nat): OrderPost {
    var groups := Group(rows);
    OrderPost(ParseInt(DecimalString(k)), if k in groups then groups[k] else [])
  }

  lemma PostForFacts(rows: seq<CartRow>, k: nat)
    requires Mentions(rows, k)
    ensures PostFor(rows, k).restaurantId == Some(k)
    ensures PostFor(rows, k).items == LinesOf(rows, k)
    ensures |PostFor(rows, k).items| > 0
  {
    GroupIsFilter(rows);
    ParseIntOfDecimal(k);
    LinesOfNonEmpty(rows, k);
  }

  /** One post per key, in the keys' order. */
  function PostsFor(rows: seq<CartRow>, keys: seq<nat>): (r: seq<OrderPost>)
    requires forall i :: 0 <= i < |keys| ==> Mentions(rows, keys[i])
    ensures |r| == |keys|
    ensures forall i :: 0 <= i < |keys| ==>
      r[i].restaurantId == Some(keys[i]) && r[i].items == LinesOf(rows, keys[i]) && |r[i].items| > 0
  {
    var posts := seq(|keys|, i requires 0 <= i < |keys| => PostFor(rows, keys[i]));
    assert forall i :: 0 <= i < |keys| ==>
      posts[i].restaurantId == Some(keys[i]) && posts[i].items == LinesOf(rows, keys[i]) && |posts[i].items| > 0 by {
      forall i | 0 <= i < |keys|
        ensures posts[i].restaurantId == Some(keys[i]) && posts[i].items == LinesOf(rows, keys[i]) && |posts[i].items| > 0
      {
        PostForFacts(rows, keys[i]);
      }
    }
    posts
  }

  /** The orders a checkout posts. An empty cart posts nothing. Otherwise
      there is exactly one post per restaurant in the cart, in ascending id
      order; each names its restaurant's id and carries exactly that
      restaurant's lines, in cart order, never none. */
  function HandleCheckout(rows: seq<CartRow>): (r: Checkout)
    ensures r.CartEmpty? <==> |rows| == 0
    ensures r.Post? ==> forall i :: 0 <= i < |r.posts| ==> r.posts[i].restaurantId.Some?
    ensures r.Post? ==> forall i, j :: 0 <= i < j < |r.posts| ==>
      r.posts[i].restaurantId.GetOr(0) < r.posts[j].restaurantId.GetOr(0)
    ensures r.Post? ==> forall k: nat :: Mentions(rows, k) <==>
      exists i :: 0 <= i < |r.posts| && r.posts[i].restaurantId == Some(k)
    ensures r.Post? ==> forall i :: 0 <= i < |r.posts| ==>
      && r.posts[i].items == LinesOf(rows, r.posts[i].restaurantId.GetOr(0))
      && |r.posts[i].items| > 0
  {
    if |rows| == 0 then CartEmpty
    else
      var keys := Keys(rows);
      var posts := PostsFor(rows, keys);
      assert forall k: nat :: Mentions(rows, k) ==> exists i :: 0 <= i < |posts| && posts[i].restaurantId == Some(k) by {
        forall k: nat | Mentions(rows, k) ensures exists i :: 0 <= i < |posts| && posts[i].restaurantId == Some(k) {
          var i :| 0 <= i < |keys| && keys[i] == k;
          assert posts[i].restaurantId == Some(k);
        }
      }
      Post(posts)
  }

  /** Each cart row lands in exactly one posted order: the one for its
      restaurant. */
  lemma EachRowPostedOnce(rows: seq<CartRow>, j: int)
    requires 0 <= j < |rows|
    ensures var r := HandleCheckout(rows);
      && r.Post?
      && (exists i :: 0 <= i < |r.posts| && r.posts[i].restaurantId == Some(rows[j].restaurantId))
      && (forall i1, i2 :: 0 <= i1 < i2 < |r.posts| ==>
            !(r.posts[i1].restaurantId == Some(rows[j].restaurantId)
              && r.posts[i2].restaurantId == Some(rows[j].restaurantId)))
  {
    assert Mentions(rows, rows[j].restaurantId);
  }
}
