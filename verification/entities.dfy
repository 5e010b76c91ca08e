/** The records the marketplace keeps in its database: orders, products and
    profiles, with the status and role vocabularies they use. Columns that no
    modelled operation reads are left out; timestamps are milliseconds since
    the epoch and money is exact (`real`). */
module Entities {
  import opened Wrappers

  /** The `status` column of an order. The five known values come from the
      order-status type; any other text is kept verbatim. */
  datatype Status = Pending | Paid | Shipped | Delivered | Cancelled | OtherStatus(raw: string) {

    /** The text stored in the database. */
    function Name(): string {
      match this
      case Pending => "pending"
      case Paid => "paid"
      case Shipped => "shipped"
      case Delivered => "delivered"
      case Cancelled => "cancelled"
      case OtherStatus(raw) => raw
    }

    /** An `OtherStatus` never spells one of the five known values. */
    predicate WellFormed() {
      OtherStatus? ==> raw !in KnownStatusNames
    }
  }

  const KnownStatusNames: set<string> := {"pending", "paid", "shipped", "delivered", "cancelled"}

  /** Reads a status column. */
  function ParseStatus(s: string): (st: Status)
    ensures st.Name() == s
    ensures st.WellFormed()
  {
    if s == "pending" then Pending
    else if s == "paid" then Paid
    else if s == "shipped" then Shipped
    else if s == "delivered" then Delivered
    else if s == "cancelled" then Cancelled
    else OtherStatus(s)
  }

  /** Writing a well-formed status and reading it back gives the same status,
      so `Name` is injective on well-formed statuses. */
  lemma StatusRoundTrip(st: Status)
    requires st.WellFormed()
    ensures ParseStatus(st.Name()) == st
  {
  }

  /** The `role` column of a profile. */
  datatype Role = Buyer | Seller | Affiliate | Admin | OtherRole(raw: string)

  /** An order row, with the joined product name and party names the pages read. */
  datatype Order = Order(
    id: string,
    buyerId: string,
    sellerId: string,
    productId: string,
    affiliateId: Option<string>,
    amount: real,
    quantity: Option<int>,
    commissionAmount: Option<real>,
    status: Status,
    otp: Option<string>,
    createdAt: int,
    expiresAt: Option<int>,
    notes: Option<string>,
    shippingTimeline: Option<string>,
    productName: Option<string>,
    buyerName: Option<string>,
    sellerName: Option<string>,
    sellerStoreName: Option<string>,
    intentId: Option<string>,
    paymentUrl: Option<string>,
    gatewayStatus: Option<string>,
    buyerPhone: Option<string>,
    deliveryLocation: Option<string>,
    shippedAt: Option<int>)
  {
    /** `order.commission_amount || 0`. */
    function Commission(): real {
      OrZero(commissionAmount)
    }
  }

  /** A product row, with the joined seller fields the catalogue reads. */
  datatype Product = Product(
    id: string,
    sellerId: string,
    name: string,
    description: Option<string>,
    price: real,
    originalPrice: Option<real>,
    stock: Option<int>,
    moq: int,
    affiliateEnabled: bool,
    defaultCommission: Option<real>,
    categoryId: Option<string>,
    cityId: Option<string>,
    createdAt: int,
    imageUrl: Option<string>,
    imagesUrl: Option<seq<string>>,
    sellerFullName: Option<string>,
    sellerVerified: bool,
    sellerStoreName: Option<string>)

  /** A profile row. */
  datatype Profile = Profile(
    id: string,
    role: Role,
    fullName: Option<string>,
    storeName: Option<string>,
    phone: Option<string>,
    avatarUrl: Option<string>,
    walletBalance: Option<real>,
    kycVerified: bool,
    verifiedSeller: bool,
    storeSlug: Option<string>,
    createdAt: int)
  {
    /** `Number(profile.wallet_balance)`, with a missing balance read as 0. */
    function Balance(): real {
      OrZero(walletBalance)
    }
  }

  /** `sub` is `s` with some elements left out and the others in their order. */
  predicate Subsequence<T(==)>(sub: seq<T>, s: seq<T>)
    decreases |s|
  {
    sub == []
    || (s != [] && ((sub[0] == s[0] && Subsequence(sub[1..], s[1..])) || Subsequence(sub, s[1..])))
  }

  /** Every element occurs in `r` as often as in `s` when it passes `keep`,
      and not at all otherwise. */
  ghost predicate KeepsCounts<T(!new)>(r: seq<T>, s: seq<T>, keep: T -> bool) {
    forall x :: multiset(r)[x] == if keep(x) then multiset(s)[x] else 0
  }

  /** The elements of `s` satisfying `keep`, in order (JavaScript `filter`). */
  function Filter<T(==,!new)>(s: seq<T>, keep: T -> bool): (r: seq<T>)
    ensures |r| <= |s|
    ensures forall x :: x in r ==> x in s && keep(x)
    ensures forall x :: x in s && keep(x) ==> x in r
    ensures Subsequence(r, s)
    ensures KeepsCounts(r, s, keep)
  {
    if s == [] then []
    else
      var rest := Filter(s[1..], keep);
      assert s == [s[0]] + s[1..];
      assert multiset(s) == multiset([s[0]]) + multiset(s[1..]);
      if keep(s[0]) then
        var r := [s[0]] + rest;
        assert r[1..] == rest;
        assert multiset(r) == multiset([s[0]]) + multiset(rest);
        r
      else rest
  }

  /** A subsequence of a subsequence is a subsequence. */
  lemma {:induction false} SubsequenceTrans<T>(a: seq<T>, b: seq<T>, c: seq<T>)
    requires Subsequence(a, b) && Subsequence(b, c)
    ensures Subsequence(a, c)
    decreases |c|
  {
    if a != [] {
      if Subsequence(b, c[1..]) {
        SubsequenceTrans(a, b, c[1..]);
      } else if a[0] == b[0] && Subsequence(a[1..], b[1..]) {
        SubsequenceTrans(a[1..], b[1..], c[1..]);
      } else {
        SubsequenceTrans(a, b[1..], c[1..]);
      }
    }
  }

  /** A list is a subsequence of itself. */
  lemma {:induction false} SubsequenceRefl<T>(s: seq<T>)
    ensures Subsequence(s, s)
    decreases |s|
  {
    if s != [] {
      SubsequenceRefl(s[1..]);
    }
  }

  /** Filtering with `p` and then with `q` keeps the order, and keeps each
      element as often as filtering once with both tests. */
  lemma FilterTwice<T(!new)>(s: seq<T>, p: T -> bool, q: T -> bool)
    ensures Subsequence(Filter(Filter(s, p), q), s)
    ensures KeepsCounts(Filter(Filter(s, p), q), s, (x: T) => p(x) && q(x))
  {
    SubsequenceTrans(Filter(Filter(s, p), q), Filter(s, p), s);
  }

  /** Two filtering steps in a row keep the order, and their tests combine. */
  lemma KeepsChain<T(!new)>(r: seq<T>, m: seq<T>, s: seq<T>, p: T -> bool, q: T -> bool)
    requires Subsequence(m, s) && KeepsCounts(m, s, p)
    requires Subsequence(r, m) && KeepsCounts(r, m, q)
    ensures Subsequence(r, s) && KeepsCounts(r, s, (x: T) => p(x) && q(x))
  {
    SubsequenceTrans(r, m, s);
  }

  /** Counts kept this way mean the members are exactly the passing
      members of `s`. */
  lemma KeepsCountsMembers<T(!new)>(r: seq<T>, s: seq<T>, keep: T -> bool)
    requires KeepsCounts(r, s, keep)
    ensures forall x :: x in r <==> x in s && keep(x)
  {
    forall x
      ensures x in r <==> x in s && keep(x)
    {
      assert x in r <==> multiset(r)[x] > 0;
      assert x in s <==> multiset(s)[x] > 0;
    }
  }

  /** Reordering a list keeps its counts. */
  lemma KeepsCountsReordered<T(!new)>(r: seq<T>, kept: seq<T>, s: seq<T>, keep: T -> bool)
    requires multiset(r) == multiset(kept) && KeepsCounts(kept, s, keep)
    ensures KeepsCounts(r, s, keep)
  {
  }

  /** Filtering with a test every element passes keeps the list. */
  lemma {:induction false} FilterAllKept<T(!new)>(s: seq<T>, keep: T -> bool)
    requires forall x :: x in s ==> keep(x)
    ensures Filter(s, keep) == s
    decreases |s|
  {
    if s != [] {
      FilterAllKept(s[1..], keep);
    }
  }

  /** Filtering a concatenation filters each part. */
  lemma {:induction false} FilterAppend<T(!new)>(a: seq<T>, b: seq<T>, keep: T -> bool)
    ensures Filter(a + b, keep) == Filter(a, keep) + Filter(b, keep)
    decreases |a|
  {
    if a == [] {
      assert a + b == b;
    } else {
      assert (a + b)[1..] == a[1..] + b;
      FilterAppend(a[1..], b, keep);
    }
  }

  /** Number of elements of `s` satisfying `p`. */
  function Count<T>(s: seq<T>, p: T -> bool): (n: nat)
    ensures n <= |s|
  {
    if s == [] then 0 else (if p(s[0]) then 1 else 0) + Count(s[1..], p)
  }

  /** Sum of `f` over `s` (JavaScript `reduce((sum, x) => sum + f(x), 0)`). */
  function Sum<T>(s: seq<T>, f: T -> real): real {
    if s == [] then 0.0 else f(s[0]) + Sum(s[1..], f)
  }

  lemma {:induction false} SumAppend<T>(a: seq<T>, b: seq<T>, f: T -> real)
    ensures Sum(a + b, f) == Sum(a, f) + Sum(b, f)
    decreases |a|
  {
    if a == [] {
      assert a + b == b;
    } else {
      assert (a + b)[1..] == a[1..] + b;
      SumAppend(a[1..], b, f);
    }
  }

  /** Counting is filtering then measuring. */
  lemma {:induction false} CountIsFilterLength<T(!new)>(s: seq<T>, p: T -> bool)
    ensures Count(s, p) == |Filter(s, p)|
    decreases |s|
  {
    if s != [] {
      CountIsFilterLength(s[1..], p);
    }
  }

  /** Milliseconds in a day. */
  const Day: int := 86400000

  /** JavaScript `Math.round`: the nearest integer, halves rounded up. */
  function Round(x: real): (r: int)
    ensures r as real - 0.5 <= x < r as real + 0.5
  {
    (x + 0.5).Floor
  }

  /** Replacing one element changes a sum by the difference. */
  lemma {:induction false} SumUpdate<T>(s: seq<T>, i: nat, x: T, f: T -> real)
    requires i < |s|
    ensures Sum(s[i := x], f) == Sum(s, f) - f(s[i]) + f(x)
    decreases |s|
  {
    if i > 0 {
      assert s[i := x][1..] == s[1..][i - 1 := x];
      SumUpdate(s[1..], i - 1, x, f);
    }
  }

  /** Removing the element at `j` removes one copy of it from the multiset. */
  lemma RemoveAtMultiset<T>(b: seq<T>, j: nat)
    requires j < |b|
    ensures multiset(b[..j] + b[j + 1..]) == multiset(b) - multiset{b[j]}
  {
    assert b == b[..j] + ([b[j]] + b[j + 1..]);
  }

  /** The sum over `b` is the removed element plus the sum over the rest. */
  lemma RemoveAtSum<T>(b: seq<T>, j: nat, f: T -> real)
    requires j < |b|
    ensures Sum(b, f) == f(b[j]) + Sum(b[..j] + b[j + 1..], f)
  {
    var front, back := b[..j], b[j + 1..];
    assert b == front + ([b[j]] + back);
    SumAppend(front, [b[j]] + back, f);
    assert ([b[j]] + back)[1..] == back;
    assert Sum([b[j]] + back, f) == f(b[j]) + Sum(back, f);
    SumAppend(front, back, f);
  }

  /** A sum does not depend on the order of its terms. */
  lemma {:induction false} SumPermutation<T>(a: seq<T>, b: seq<T>, f: T -> real)
    requires multiset(a) == multiset(b)
    ensures Sum(a, f) == Sum(b, f)
    decreases |a|
  {
    if |a| > 0 {
      assert a == [a[0]] + a[1..];
      assert a[0] in multiset(b);
      var j :| 0 <= j < |b| && b[j] == a[0];
      RemoveAtMultiset(b, j);
      RemoveAtSum(b, j, f);
      SumPermutation(a[1..], b[..j] + b[j + 1..], f);
    }
  }
}
