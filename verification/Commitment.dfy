/** The input-set commitment of the proven path: a hash of the sorted, deduplicated order digests,
    and the proof that it names a set of orders and nothing less. */
module Commitment {
  import opened Wrappers
  import opened SettlementCore
  import opened Sorting

  /** `d` written big-endian in `n` bytes. */
  function BigEndian(d: Hash, n: nat): (bytes: seq<nat>)
    ensures |bytes| == n
  {
    if n == 0 then [] else BigEndian(d / 256, n - 1) + [d % 256]
  }

  function Pow256(n: nat): (p: posint) {
    if n == 0 then 1 else 256 * Pow256(n - 1)
  }

  /** Most significant byte first: byte `i` is the digit of weight 256 to the power n - 1 - i. */
  lemma {:induction false} BigEndianDigit(d: Hash, n: nat, i: nat)
    requires i < n
    ensures BigEndian(d, n)[i] == d / Pow256(n - 1 - i) % 256
  {
    if i == n - 1 {
      assert Pow256(0) == 1;
    } else {
      BigEndianDigit(d / 256, n - 1, i);
      DivideTwice(d, Pow256(n - 2 - i));
    }
  }

  lemma DivideTwice(d: nat, p: posint)
    ensures d / 256 / p == d / (256 * p)
  {
    var a, q := d / 256, d / 256 / p;
    assert d == 256 * a + d % 256 && a == p * q + a % p;
    assert 256 * (p * q) == (256 * p) * q;
    QuotientIs(d, 256 * p, q, 256 * (a % p) + d % 256);
  }

  lemma QuotientIs(d: nat, m: posint, q: nat, rest: nat)
    requires d == m * q + rest && rest < m
    ensures d / m == q
  {
    var off := d / m - q;
    assert off >= 1 ==> m * off >= m;
    assert off <= -1 ==> m * off <= 0 - m;
    assert m * off == rest - d % m;
  }

  predicate Fits(d: Hash, n: nat) {
    if n == 0 then d == 0 else Fits(d / 256, n - 1)
  }

  /** A 32-byte digest. */
  predicate IsB256(d: Hash) {
    Fits(d, WIDTH)
  }

  const WIDTH: nat := 32
  const DIGEST_KEY: Hash -> Key := (d: Hash) => (d, 0)

  function OrderDigests(c: Crypto, orders: seq<Order>): (r: seq<Hash>)
    ensures |r| == |orders| && forall i :: 0 <= i < |r| ==> r[i] == c.orderDigest(orders[i])
  {
    seq<Hash>(|orders|, i requires 0 <= i < |orders| => c.orderDigest(orders[i]))
  }

  function Concat(digests: seq<Hash>): seq<nat> {
    if digests == [] then [] else Concat(digests[..|digests| - 1]) + BigEndian(digests[|digests| - 1], WIDTH)
  }

  function CanonicalDigests(c: Crypto, orders: seq<Order>): seq<Hash> {
    Dedup(SortBy(OrderDigests(c, orders), DIGEST_KEY), DIGEST_KEY)
  }

  method OrdersCommitment(c: Crypto, keccak: seq<nat> -> Hash, orders: seq<Order>) returns (h: Hash)
    ensures h == keccak(Concat(CanonicalDigests(c, orders)))
  {
    var digests := Dedup(SortBy(OrderDigests(c, orders), DIGEST_KEY), DIGEST_KEY);
    var buf: seq<nat> := [];
    var i := 0;
    while i < |digests|
      invariant i <= |digests|
      invariant buf == Concat(digests[..i])
    {
      assert digests[..i+1][..i] == digests[..i];
      buf := buf + BigEndian(digests[i], WIDTH);
      i := i + 1;
    }
    assert digests[..i] == digests;
    h := keccak(buf);
  }

  lemma {:induction false} BigEndianInjective(a: Hash, b: Hash, n: nat)
    requires Fits(a, n) && Fits(b, n) && BigEndian(a, n) == BigEndian(b, n)
    ensures a == b
  {
    if n > 0 {
      var x, y := BigEndian(a / 256, n - 1), BigEndian(b / 256, n - 1);
      assert BigEndian(a, n)[..n-1] == x && BigEndian(b, n)[..n-1] == y;
      assert BigEndian(a, n)[n-1] == a % 256 && BigEndian(b, n)[n-1] == b % 256;
      BigEndianInjective(a / 256, b / 256, n - 1);
    }
  }

  /** Fixed-width digests laid end to end decode uniquely. */
  lemma {:induction false} ConcatInjective(a: seq<Hash>, b: seq<Hash>)
    requires (forall d :: d in a ==> IsB256(d)) && (forall d :: d in b ==> IsB256(d))
    requires Concat(a) == Concat(b)
    ensures a == b
  {
    ConcatLength(a);
    ConcatLength(b);
    if a != [] {
      var n := |a| - 1;
      var x, y := BigEndian(a[n], WIDTH), BigEndian(b[n], WIDTH);
      ConcatLength(a[..n]);
      ConcatLength(b[..n]);
      var k := |Concat(a[..n])|;
      assert Concat(a)[..k] == Concat(a[..n]) && Concat(a)[k..] == x;
      assert Concat(b)[..k] == Concat(b[..n]) && Concat(b)[k..] == y;
      assert a[n] in a && b[n] in b;
      assert IsB256(a[n]) && IsB256(b[n]);
      BigEndianInjective(a[n], b[n], WIDTH);
      ConcatInjective(a[..n], b[..n]);
      assert a == a[..n] + [a[n]] && b == b[..n] + [b[n]];
    }
  }

  lemma {:induction false} ConcatLength(a: seq<Hash>)
    ensures |Concat(a)| == WIDTH * |a|
  {
    if a != [] { ConcatLength(a[..|a| - 1]); }
  }

  /** The canonical digests are the digests of the orders present, strictly ascending. */
  lemma CanonicalDigestsMeaning(c: Crypto, orders: seq<Order>)
    ensures StrictlyAscending(CanonicalDigests(c, orders), DIGEST_KEY)
    ensures var digests := CanonicalDigests(c, orders);
            forall i, j :: 0 <= i < j < |digests| ==> digests[i] < digests[j]
    ensures forall d :: d in CanonicalDigests(c, orders) <==> exists o :: o in orders && c.orderDigest(o) == d
  {
    var digests := OrderDigests(c, orders);
    var sorted := SortBy(digests, DIGEST_KEY);
    SortAscends(digests, DIGEST_KEY);
    DedupStrict(sorted, DIGEST_KEY);
    forall d ensures d in CanonicalDigests(c, orders) <==> exists o :: o in orders && c.orderDigest(o) == d {
      SortByMember(digests, DIGEST_KEY, d);
      if d in CanonicalDigests(c, orders) {
        DedupMember(sorted, DIGEST_KEY, d);
        var i :| 0 <= i < |digests| && digests[i] == d;
        assert orders[i] in orders;
      }
      if o :| o in orders && c.orderDigest(o) == d {
        var i :| 0 <= i < |orders| && orders[i] == o;
        assert digests[i] == d;
        var k :| 0 <= k < |sorted| && sorted[k] == d;
        var j := DedupKeepsKeys(sorted, DIGEST_KEY, k);
        assert CanonicalDigests(c, orders)[j] == d;
      }
    }
  }

  /** What is asked of the order hash for two inputs: 32-byte digests, different for any two of the
      orders at hand. */
  ghost predicate DigestsTell(c: Crypto, orders: seq<Order>) {
    && (forall o :: o in orders ==> IsB256(c.orderDigest(o)))
    && c.DigestsDiffer(orders)
  }

  lemma CanonicalDigestsFit(c: Crypto, orders: seq<Order>, all: seq<Order>)
    requires DigestsTell(c, all) && forall o :: o in orders ==> o in all
    ensures forall d :: d in CanonicalDigests(c, orders) ==> IsB256(d)
  {
    CanonicalDigestsMeaning(c, orders);
    forall d | d in CanonicalDigests(c, orders) ensures IsB256(d) {
      var o :| o in orders && c.orderDigest(o) == d;
    }
  }

  lemma SameDigestsSameOrders(c: Crypto, a: seq<Order>, b: seq<Order>, o: Order)
    requires DigestsTell(c, a + b) && CanonicalDigests(c, a) == CanonicalDigests(c, b)
    requires o in a
    ensures o in b
  {
    CanonicalDigestsMeaning(c, a);
    CanonicalDigestsMeaning(c, b);
    assert c.orderDigest(o) in CanonicalDigests(c, a);
    var x :| x in b && c.orderDigest(x) == c.orderDigest(o);
    assert x in a + b && o in a + b;
  }

  /** Two inputs commit to the same value exactly when they hold the same set of orders, provided
      only that the digests of these orders are 32 bytes and differ, and that keccak does not
      collide on these two buffers. */
  lemma CommitmentIsCanonical(c: Crypto, keccak: seq<nat> -> Hash, a: seq<Order>, b: seq<Order>)
    requires DigestsTell(c, a + b)
    requires var x, y := Concat(CanonicalDigests(c, a)), Concat(CanonicalDigests(c, b));
             keccak(x) == keccak(y) ==> x == y
    ensures keccak(Concat(CanonicalDigests(c, a))) == keccak(Concat(CanonicalDigests(c, b)))
            <==> forall o :: o in a <==> o in b
  {
    var da, db := CanonicalDigests(c, a), CanonicalDigests(c, b);
    if keccak(Concat(da)) == keccak(Concat(db)) {
      CanonicalDigestsFit(c, a, a + b);
      CanonicalDigestsFit(c, b, a + b);
      ConcatInjective(da, db);
      forall o ensures o in a <==> o in b {
        if o in a { SameDigestsSameOrders(c, a, b, o); }
        if o in b {
          assert DigestsTell(c, b + a) by { assert forall x :: x in b + a <==> x in a + b; }
          SameDigestsSameOrders(c, b, a, o);
        }
      }
    }
    if forall o :: o in a <==> o in b {
      CanonicalDigestsMeaning(c, a);
      CanonicalDigestsMeaning(c, b);
      forall d ensures d in da <==> d in db {
      }
      StrictSortUnique(da, db, DIGEST_KEY);
    }
  }

  /** The hypotheses can be met: for any two different orders there are primitives that satisfy
      them and give the two one-order sets different commitments. */
  lemma TwoOrdersCommitApart(x: Order, y: Order) returns (c: Crypto, keccak: seq<nat> -> Hash)
    requires x != y
    ensures DigestsTell(c, [x] + [y])
    ensures var p, q := Concat(CanonicalDigests(c, [x])), Concat(CanonicalDigests(c, [y]));
            && (keccak(p) == keccak(q) ==> p == q)
            && keccak(p) != keccak(q)
  {
    c := Crypto(o => if o == x then 1 else 2, text => 0, fills => 0, (b, n, h) => 0, (d, sig) => None);
    SmallFits(1, WIDTH);
    SmallFits(2, WIDTH);
    var p := Concat(CanonicalDigests(c, [x]));
    keccak := buf => if buf == p then 1 else 2;
    assert DigestsTell(c, [x] + [y]);
    CanonicalDigestsFit(c, [x], [x] + [y]);
    CanonicalDigestsFit(c, [y], [x] + [y]);
    if p == Concat(CanonicalDigests(c, [y])) {
      ConcatInjective(CanonicalDigests(c, [x]), CanonicalDigests(c, [y]));
      assert x in [x];
      SameDigestsSameOrders(c, [x], [y], x);
      assert false;
    }
  }

  lemma {:induction false} SmallFits(d: Hash, n: nat)
    requires n > 0 && d < 256
    ensures Fits(d, n)
  {
    if n == 1 {
      assert d / 256 == 0;
    } else {
      assert d / 256 == 0;
      SmallFits(d / 256, n - 1);
    }
  }
}
