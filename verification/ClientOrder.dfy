/** The order of `client_id` strings (by code point, as Python compares them), and
    the stable sort of a batch by that order. */
module ClientOrder {
  predicate Leq(a: string, b: string) {
    a == "" || (b != "" && (a[0] < b[0] || (a[0] == b[0] && Leq(a[1..], b[1..]))))
  }

  lemma {:induction false} LeqTotal(a: string, b: string)
    ensures Leq(a, b) || Leq(b, a)
    ensures Leq(a, b) && Leq(b, a) ==> a == b
  {
    if a != "" && b != "" && a[0] == b[0] {
      LeqTotal(a[1..], b[1..]);
      assert a == [a[0]] + a[1..] && b == [b[0]] + b[1..];
    }
  }

  lemma {:induction false} LeqTransitive(a: string, b: string, c: string)
    requires Leq(a, b) && Leq(b, c)
    ensures Leq(a, c)
  {
    if a != "" && a[0] == b[0] == c[0] {
      LeqTransitive(a[1..], b[1..], c[1..]);
    }
  }

  /** The strings agree up to `k`, and there `a` ends or has the smaller character. */
  predicate SmallerAt(a: string, b: string, k: nat) {
    k <= |a| && k <= |b| && a[..k] == b[..k] && (k == |a| || (k < |b| && a[k] < b[k]))
  }

  /** This is the lexicographic order. */
  lemma {:induction false} LeqIsLexicographic(a: string, b: string)
    ensures Leq(a, b) <==> exists k: nat :: SmallerAt(a, b, k)
  {
    if a == "" {
      assert SmallerAt(a, b, 0);
    } else if b != "" {
      if a[0] < b[0] {
        assert SmallerAt(a, b, 0);
      } else if a[0] == b[0] {
        LeqIsLexicographic(a[1..], b[1..]);
        if k: nat :| SmallerAt(a[1..], b[1..], k) {
          assert a[..k + 1] == [a[0]] + a[1..][..k] && b[..k + 1] == [b[0]] + b[1..][..k];
          assert SmallerAt(a, b, k + 1);
        }
        if k: nat :| SmallerAt(a, b, k) {
          assert k > 0 && a[1..][..k - 1] == a[..k][1..] && b[1..][..k - 1] == b[..k][1..];
          assert SmallerAt(a[1..], b[1..], k - 1);
        }
      } else {
        forall k: nat ensures !SmallerAt(a, b, k) {
          if 0 < k <= |a| && k <= |b| {
            assert a[..k][0] == a[0] && b[..k][0] == b[0];
          }
        }
      }
    }
  }

  /** Item `i` is written before item `j`. */
  predicate Before(keys: seq<string>, i: nat, j: nat)
    requires i < |keys| && j < |keys|
  {
    Leq(keys[i], keys[j]) && (keys[i] == keys[j] ==> i < j)
  }

  /** `order` lists every index once, by key, and equal keys in input order. */
  predicate IsStableOrder(keys: seq<string>, order: seq<nat>) {
    && |order| == |keys|
    && (forall a | 0 <= a < |order| :: order[a] < |keys|)
    && (forall i | 0 <= i < |keys| :: i in order)
    && (forall a, b | 0 <= a < b < |order| :: Before(keys, order[a], order[b]))
  }

  /** Insert index `i` after every index whose key is not above its own. */
  function InsertIndex(keys: seq<string>, order: seq<nat>, i: nat): seq<nat>
    requires i < |keys| && forall a | 0 <= a < |order| :: order[a] < |keys|
  {
    if order == [] then [i]
    else if Leq(keys[order[0]], keys[i]) then [order[0]] + InsertIndex(keys, order[1..], i)
    else [i] + order
  }

  /** In range, and in writing order. */
  predicate Ordered(keys: seq<string>, order: seq<nat>, bound: nat)
    requires bound <= |keys|
  {
    && (forall a | 0 <= a < |order| :: order[a] < bound)
    && (forall a, b | 0 <= a < b < |order| :: Before(keys, order[a], order[b]))
  }

  lemma {:induction false} InsertIndexOrdered(keys: seq<string>, order: seq<nat>, i: nat)
    requires i < |keys| && Ordered(keys, order, i)
    ensures var r := InsertIndex(keys, order, i);
            && |r| == |order| + 1
            && (forall k: nat :: k in r <==> k == i || k in order)
            && Ordered(keys, r, i + 1)
    decreases |order|
  {
    var r := InsertIndex(keys, order, i);
    if order != [] {
      if Leq(keys[order[0]], keys[i]) {
        InsertIndexOrdered(keys, order[1..], i);
        var rest := InsertIndex(keys, order[1..], i);
        forall a | 0 <= a < |rest| ensures Before(keys, order[0], rest[a]) {
          assert rest[a] in rest;
        }
      } else {
        forall a | 0 <= a < |order| ensures Before(keys, i, order[a]) {
          LeqTotal(keys[order[0]], keys[i]);
          assert a == 0 || Before(keys, order[0], order[a]);
          if a > 0 {
            LeqTransitive(keys[i], keys[order[0]], keys[order[a]]);
            LeqTotal(keys[order[0]], keys[order[a]]);
          }
        }
      }
    }
  }

  /** `sorted(range(n), key=lambda i: keys[i])`. */
  function StablePrefix(keys: seq<string>, n: nat): (r: seq<nat>)
    requires n <= |keys|
    ensures |r| == n && Ordered(keys, r, n)
    ensures forall k: nat :: k in r <==> k < n
  {
    if n == 0 then [] else
      var before := StablePrefix(keys, n - 1);
      InsertIndexOrdered(keys, before, n - 1);
      InsertIndex(keys, before, n - 1)
  }

  function StableOrder(keys: seq<string>): (r: seq<nat>)
    ensures IsStableOrder(keys, r)
  {
    StablePrefix(keys, |keys|)
  }
}
