/**
 * The ordering and pagination shared by every ranked listing:
 * `ORDER BY <key> DESC LIMIT l OFFSET o` in the Postgres service and
 * `$sort: { key: -1 }` then `.skip(s).limit(l)` in the Mongo service.
 *
 * Sort keys are exact rationals, so that integer columns (a date, an upvote
 * count) and the Mongo upvotes-per-hour quotient are compared by the same
 * cross-multiplication, without floating point.
 */
module Ranking {
  import opened Wrappers

  /** The rational number `num / den`; the denominator is kept positive. */
  datatype Fraction = Fraction(num: int, den: int)
  type Score = f: Fraction | f.den > 0 witness Fraction(0, 1)

  /** An integer sort key. */
  function Whole(n: int): (s: Score)
    ensures s.num == n
  {
    Fraction(n, 1)
  }

  /** `a >= b` on the rationals the two scores denote. */
  predicate AtLeast(a: Score, b: Score) {
    a.num * b.den >= b.num * a.den
  }

  lemma AtLeastTotal(a: Score, b: Score)
    ensures AtLeast(a, b) || AtLeast(b, a)
  {
  }

  lemma MulMono(x: int, y: int, k: int)
    requires x >= y && k > 0
    ensures x * k >= y * k
  {
  }

  lemma MulCancel(x: int, y: int, k: int)
    requires x * k >= y * k && k > 0
    ensures x >= y
  {
    if x < y {
      MulMono(y, x + 1, k);
    }
  }

  lemma AtLeastTransitive(a: Score, b: Score, c: Score)
    requires AtLeast(a, b) && AtLeast(b, c)
    ensures AtLeast(a, c)
  {
    MulMono(a.num * b.den, b.num * a.den, c.den);
    MulMono(b.num * c.den, c.num * b.den, a.den);
    assert a.num * b.den * c.den >= b.num * a.den * c.den;
    assert b.num * c.den * a.den >= c.num * b.den * a.den;
    assert b.num * a.den * c.den == b.num * c.den * a.den;
    assert a.num * c.den * b.den >= c.num * a.den * b.den;
    MulCancel(a.num * c.den, c.num * a.den, b.den);
  }

  /** On integer keys the order is the usual one. */
  lemma AtLeastWhole(m: int, n: int)
    ensures AtLeast(Whole(m), Whole(n)) <==> m >= n
  {
  }

  /** Every element is ranked at least as high as every later one. */
  ghost predicate SortedDesc<T>(xs: seq<T>, key: T -> Score) {
    forall i, j :: 0 <= i < j < |xs| ==> AtLeast(key(xs[i]), key(xs[j]))
  }

  /** Puts `x` into a descending sequence after every element ranked at least as high. */
  function Insert<T>(x: T, xs: seq<T>, key: T -> Score): (r: seq<T>)
    requires SortedDesc(xs, key)
    ensures multiset(r) == multiset(xs) + multiset{x}
    ensures SortedDesc(r, key)
    decreases |xs|
  {
    if xs == [] then [x]
    else if AtLeast(key(xs[0]), key(x)) then
      var tail := Insert(x, xs[1..], key);
      assert xs == [xs[0]] + xs[1..];
      InsertHead(xs[0], x, xs[1..], tail, key);
      [xs[0]] + tail
    else
      AtLeastTotal(key(xs[0]), key(x));
      InsertFront(x, xs, key);
      [x] + xs
  }

  lemma InsertHead<T>(h: T, x: T, rest: seq<T>, tail: seq<T>, key: T -> Score)
    requires SortedDesc([h] + rest, key) && SortedDesc(tail, key)
    requires AtLeast(key(h), key(x))
    requires multiset(tail) == multiset(rest) + multiset{x}
    ensures SortedDesc([h] + tail, key)
  {
    var r := [h] + tail;
    forall i, j | 0 <= i < j < |r| ensures AtLeast(key(r[i]), key(r[j])) {
      if i == 0 {
        var y := r[j];
        assert y == tail[j - 1];
        assert y in multiset(tail);
        if y != x {
          assert y in multiset(rest);
          var k :| 0 <= k < |rest| && rest[k] == y;
          assert ([h] + rest)[0] == h && ([h] + rest)[k + 1] == y;
          assert AtLeast(key(([h] + rest)[0]), key(([h] + rest)[k + 1]));
        }
        assert r[i] == h;
      } else {
        assert r[i] == tail[i - 1] && r[j] == tail[j - 1];
      }
    }
  }

  lemma InsertFront<T>(x: T, xs: seq<T>, key: T -> Score)
    requires xs != [] && SortedDesc(xs, key)
    requires AtLeast(key(x), key(xs[0]))
    ensures SortedDesc([x] + xs, key)
  {
    var r := [x] + xs;
    forall i, j | 0 <= i < j < |r| ensures AtLeast(key(r[i]), key(r[j])) {
      if i == 0 && j > 1 {
        AtLeastTransitive(key(x), key(xs[0]), key(xs[j - 1]));
      }
    }
  }

  /**
   * A descending ordering of `xs` by `key`: a permutation of `xs`, sorted.
   * Rows whose keys tie keep their store order; the databases leave the order
   * of ties unspecified, and this is one of the orders they may return.
   */
  function SortDesc<T>(xs: seq<T>, key: T -> Score): (r: seq<T>)
    ensures multiset(r) == multiset(xs)
    ensures SortedDesc(r, key)
    decreases |xs|
  {
    if xs == [] then []
    else
      var init := xs[..|xs| - 1];
      assert xs == init + [xs[|xs| - 1]];
      Insert(xs[|xs| - 1], SortDesc(init, key), key)
  }

  function Min(a: int, b: int): int {
    if a <= b then a else b
  }

  /** `LIMIT limit OFFSET offset`: skip `offset` rows, then return at most `limit`. */
  function SqlPage<T>(xs: seq<T>, limit: nat, offset: nat): (r: seq<T>)
    ensures |r| == Min(limit, if offset <= |xs| then |xs| - offset else 0)
    ensures forall k :: 0 <= k < |r| ==> r[k] == xs[offset + k]
  {
    var from := Min(offset, |xs|);
    xs[from..Min(from + limit, |xs|)]
  }

  /** MongoDB's refusal of a `$limit` stage whose count is not positive. */
  const LimitNotPositive := "the limit must be positive"

  /**
   * `.skip(skip).limit(limit)` on an aggregation, which appends a `$skip`
   * and a `$limit` stage: the pipeline is refused when the limit is 0,
   * and otherwise gives at most `limit` rows after the first `skip`.
   */
  function MongoPage<T>(xs: seq<T>, skip: nat, limit: nat): (r: Result<seq<T>>)
    ensures r.Failure? <==> limit == 0
    ensures r.Failure? ==> r.error == LimitNotPositive
    ensures r.Success? ==> r.value == SqlPage(xs, limit, skip)
  {
    var rest := xs[Min(skip, |xs|)..];
    if limit == 0 then Failure(LimitNotPositive) else Success(rest[..Min(limit, |rest|)])
  }

  /** Two consecutive pages make up the page that spans both. */
  lemma PagesConcat<T>(xs: seq<T>, a: nat, b: nat, offset: nat)
    ensures SqlPage(xs, a, offset) + SqlPage(xs, b, offset + a) == SqlPage(xs, a + b, offset)
  {
  }

  /** The first `n` pages of size `limit`, concatenated. */
  function FirstPages<T>(xs: seq<T>, limit: nat, n: nat): seq<T>
    decreases n
  {
    if n == 0 then [] else FirstPages(xs, limit, n - 1) + SqlPage(xs, limit, (n - 1) * limit)
  }

  /**
   * Reading successive pages `[0, limit), [limit, 2 limit), ...` of a fixed
   * ordering returns its prefix, each row exactly once and in order, so
   * enough pages reproduce the whole ordering.
   */
  lemma {:induction false} FirstPagesArePrefix<T>(xs: seq<T>, limit: nat, n: nat)
    ensures FirstPages(xs, limit, n) == xs[..Min(n * limit, |xs|)]
    decreases n
  {
    if n > 0 {
      FirstPagesArePrefix(xs, limit, n - 1);
      assert (n - 1) * limit + limit == n * limit;
      PagesConcat(xs, (n - 1) * limit, limit, 0);
      assert SqlPage(xs, (n - 1) * limit, 0) == xs[..Min((n - 1) * limit, |xs|)];
    }
  }

  /**
   * On a descending ordering, every row of a page ranks at least as high as
   * every row of any page that starts after it ends.
   */
  lemma LaterPagesRankLower<T>(xs: seq<T>, key: T -> Score, limit: nat, offset: nat, laterLimit: nat, laterOffset: nat)
    requires SortedDesc(xs, key) && offset + limit <= laterOffset
    ensures forall a, b :: a in SqlPage(xs, limit, offset) && b in SqlPage(xs, laterLimit, laterOffset) ==> AtLeast(key(a), key(b))
  {
    var p, q := SqlPage(xs, limit, offset), SqlPage(xs, laterLimit, laterOffset);
    forall a, b | a in p && b in q ensures AtLeast(key(a), key(b)) {
      var i :| 0 <= i < |p| && p[i] == a;
      var j :| 0 <= j < |q| && q[j] == b;
      assert a == xs[offset + i] && b == xs[laterOffset + j];
    }
  }
}
