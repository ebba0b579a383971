/**
 * The deterministic randomiser: salted SHA-256 orderings of a list
 * (`shuffleItems`), round-robin picks through successive salted orderings
 * (`pickShuffledItem`), and the night-time test used to send silently.
 *
 * SHA-256 is not computed. It is a parameter `sha` of type `Sha256`, an
 * arbitrary function from the hashed text to a 64-digit hexadecimal digest,
 * so every property below holds whatever the hash function is.
 */
module Helpers {
  import opened Wrappers
  import opened Decimal

  type Nibble = n: int | 0 <= n < 16

  /** A SHA-256 digest as its 64 hexadecimal digits, most significant first. */
  type Digest = d: seq<Nibble> | |d| == 64 witness seq(64, _ => 0)

  /**
   * `getSha256(a, b)`: the digest of the concatenation of its arguments
   * (`hash.update(a); hash.update(b)`).
   */
  type Sha256 = string -> Digest

  /** `parseInt(hex, 16)` for a string of hexadecimal digits. */
  function HexValue(d: seq<Nibble>): nat
  {
    if d == [] then 0 else HexValue(d[..|d| - 1]) * 16 + d[|d| - 1]
  }

  // ---------------------------------------------------------------------
  // nowIsNight

  /** `nowIsNight()` for the local hour of the day, which the clock supplies. */
  function NowIsNight(hour: int): (night: bool)
    requires 0 <= hour < 24
    ensures !night <==> 9 <= hour <= 20
  {
    hour > 20 || hour < 9
  }

  // ---------------------------------------------------------------------
  // Stable sorting by a numeric key

  /** One `{ key, item }` pair of `shuffleItems`. */
  datatype Keyed<T> = Keyed(key: nat, item: T)

  ghost predicate SortedByKey<T>(s: seq<Keyed<T>>)
  {
    forall i, j :: 0 <= i < j < |s| ==> s[i].key <= s[j].key
  }

  /** The pairs of `s` whose key is `k`, in their order in `s`. */
  function WithKey<T>(s: seq<Keyed<T>>, k: nat): seq<Keyed<T>>
  {
    if s == [] then [] else (if s[0].key == k then [s[0]] else []) + WithKey(s[1..], k)
  }

  /**
   * `r` is `s` stably sorted by key: ascending keys, and the pairs that share
   * a key appear in `r` in the order they have in `s`. This is what
   * `Array.prototype.sort` (stable since ECMAScript 2019) computes.
   */
  ghost predicate IsStableSortOf<T>(r: seq<Keyed<T>>, s: seq<Keyed<T>>)
  {
    SortedByKey(r) && forall k: nat :: WithKey(r, k) == WithKey(s, k)
  }

  /** Places `p` before the first pair whose key is not smaller. */
  function Insert<T>(p: Keyed<T>, s: seq<Keyed<T>>): (r: seq<Keyed<T>>)
    ensures |r| == |s| + 1
    ensures multiset(r) == multiset(s) + multiset{p}
  {
    if s == [] || p.key <= s[0].key then [p] + s
    else
      assert s == [s[0]] + s[1..];
      [s[0]] + Insert(p, s[1..])
  }

  /** An insertion sort; any stable sort gives the same result (StableSortUnique). */
  function SortByKey<T>(s: seq<Keyed<T>>): (r: seq<Keyed<T>>)
    ensures |r| == |s|
  {
    if s == [] then [] else Insert(s[0], SortByKey(s[1..]))
  }

  /** The items of the pairs, in order (`pairs.map(({ item }) => item)`). */
  function Items<T>(s: seq<Keyed<T>>): (r: seq<T>)
    ensures |r| == |s|
    ensures forall i :: 0 <= i < |s| ==> r[i] == s[i].item
  {
    if s == [] then [] else [s[0].item] + Items(s[1..])
  }

  lemma {:induction false} WithKeyMember<T>(s: seq<Keyed<T>>, k: nat, x: Keyed<T>)
    ensures x in WithKey(s, k) <==> x in s && x.key == k
  {
    if s != [] {
      WithKeyMember(s[1..], k, x);
      assert s == [s[0]] + s[1..];
    }
  }

  lemma {:induction false} WithKeyCons<T>(x: Keyed<T>, s: seq<Keyed<T>>, k: nat)
    ensures WithKey([x] + s, k) == (if x.key == k then [x] else []) + WithKey(s, k)
  {
    assert ([x] + s)[1..] == s;
  }

  lemma {:induction false} InsertSorted<T>(p: Keyed<T>, s: seq<Keyed<T>>)
    requires SortedByKey(s)
    ensures SortedByKey(Insert(p, s))
  {
    if s != [] && p.key > s[0].key {
      InsertSorted(p, s[1..]);
      var t := Insert(p, s[1..]);
      forall x | x in t ensures s[0].key <= x.key {
        assert x in multiset(t);
        if x != p {
          assert x in multiset(s[1..]);
          var i :| 0 <= i < |s[1..]| && s[1..][i] == x;
          assert s[i + 1] == x;
        }
      }
    }
  }

  lemma {:induction false} InsertWithKey<T>(p: Keyed<T>, s: seq<Keyed<T>>, k: nat)
    requires SortedByKey(s)
    ensures WithKey(Insert(p, s), k) == (if p.key == k then [p] else []) + WithKey(s, k)
  {
    if s == [] || p.key <= s[0].key {
      WithKeyCons(p, s, k);
    } else {
      InsertWithKey(p, s[1..], k);
      WithKeyCons(s[0], Insert(p, s[1..]), k);
      assert s == [s[0]] + s[1..];
      WithKeyCons(s[0], s[1..], k);
    }
  }

  /** SortByKey computes a stable sort. */
  lemma {:induction false} SortByKeyIsStableSort<T>(s: seq<Keyed<T>>)
    ensures IsStableSortOf(SortByKey(s), s)
  {
    if s != [] {
      SortByKeyIsStableSort(s[1..]);
      InsertSorted(s[0], SortByKey(s[1..]));
      forall k: nat ensures WithKey(SortByKey(s), k) == WithKey(s, k) {
        InsertWithKey(s[0], SortByKey(s[1..]), k);
        assert s == [s[0]] + s[1..];
        WithKeyCons(s[0], s[1..], k);
      }
    }
  }

  lemma SortedHeadIsLeast<T>(s: seq<Keyed<T>>, k: nat)
    requires SortedByKey(s) && s != []
    requires WithKey(s, k) != []
    ensures s[0].key <= k
  {
    var x := WithKey(s, k)[0];
    WithKeyMember(s, k, x);
    var i :| 0 <= i < |s| && s[i] == x;
  }

  lemma HeadWithKey<T>(s: seq<Keyed<T>>)
    requires s != []
    ensures WithKey(s, s[0].key) != [] && WithKey(s, s[0].key)[0] == s[0]
  {
  }

  /**
   * A stable sort is unique: two sequences sorted by key whose pairs of each
   * key come in the same order are equal.
   */
  lemma {:induction false} StableSortUnique<T>(a: seq<Keyed<T>>, b: seq<Keyed<T>>)
    requires SortedByKey(a) && SortedByKey(b)
    requires forall k: nat :: WithKey(a, k) == WithKey(b, k)
    ensures a == b
    decreases |a|
  {
    if a == [] || b == [] {
      if a != [] {
        HeadWithKey(a);
        assert false;
      } else if b != [] {
        HeadWithKey(b);
        assert false;
      }
    } else {
      HeadWithKey(a);
      HeadWithKey(b);
      SortedHeadIsLeast(a, b[0].key);
      SortedHeadIsLeast(b, a[0].key);
      var k0 := a[0].key;
      assert a[0] == b[0];
      forall k: nat ensures WithKey(a[1..], k) == WithKey(b[1..], k) {
        var front := if a[0].key == k then [a[0]] else [];
        assert WithKey(a, k) == front + WithKey(a[1..], k);
        assert WithKey(b, k) == front + WithKey(b[1..], k);
        assert (front + WithKey(a[1..], k))[|front|..] == WithKey(a[1..], k);
        assert (front + WithKey(b[1..], k))[|front|..] == WithKey(b[1..], k);
      }
      StableSortUnique(a[1..], b[1..]);
      assert a == [a[0]] + a[1..];
      assert b == [b[0]] + b[1..];
    }
  }

  lemma {:induction false} InsertItems<T>(p: Keyed<T>, s: seq<Keyed<T>>)
    ensures multiset(Items(Insert(p, s))) == multiset(Items(s)) + multiset{p.item}
  {
    if s == [] || p.key <= s[0].key {
      assert Items([p] + s) == [p.item] + Items(s);
    } else {
      InsertItems(p, s[1..]);
      assert Items([s[0]] + Insert(p, s[1..])) == [s[0].item] + Items(Insert(p, s[1..]));
      assert Items(s) == [s[0].item] + Items(s[1..]);
    }
  }

  lemma {:induction false} SortByKeyItems<T>(s: seq<Keyed<T>>)
    ensures multiset(Items(SortByKey(s))) == multiset(Items(s))
  {
    if s != [] {
      SortByKeyItems(s[1..]);
      InsertItems(s[0], SortByKey(s[1..]));
      assert Items(s) == [s[0].item] + Items(s[1..]);
    }
  }

  // ---------------------------------------------------------------------
  // shuffleItems and pickShuffledItem

  /** The sort key of `item`: the digest of `${item}` followed by `${salt}`. */
  function ShuffleKey<T>(item: T, salt: string, show: T -> string, sha: Sha256): nat
  {
    HexValue(sha(show(item) + salt))
  }

  /** `items.map((item) => ({ key: getSha256(`${item}`, `${salt}`), item }))`. */
  function Tag<T>(items: seq<T>, salt: string, show: T -> string, sha: Sha256): (r: seq<Keyed<T>>)
    ensures Items(r) == items
    ensures forall i :: 0 <= i < |r| ==> r[i].key == ShuffleKey(items[i], salt, show, sha)
  {
    if items == [] then []
    else
      var rest := Tag(items[1..], salt, show, sha);
      assert items == [items[0]] + items[1..];
      [Keyed(ShuffleKey(items[0], salt, show, sha), items[0])] + rest
  }

  /**
   * `shuffleItems(items, salt)`: the items ordered by ascending salted digest.
   * `show` is the template-literal text of an item (`${item}`). The result is a
   * permutation of the input.
   */
  function ShuffleItems<T>(items: seq<T>, salt: string, show: T -> string, sha: Sha256): (r: seq<T>)
    ensures |r| == |items|
    ensures multiset(r) == multiset(items)
  {
    var tagged := Tag(items, salt, show, sha);
    SortByKeyItems(tagged);
    Items(SortByKey(tagged))
  }

  /**
   * The output of shuffleItems is determined by its inputs alone: it is the
   * item sequence of the (unique) stable sort by key of the tagged items,
   * whichever stable sorting algorithm computes it.
   */
  lemma ShuffleItemsIsStableSort<T>(items: seq<T>, salt: string, show: T -> string, sha: Sha256, sorted: seq<Keyed<T>>)
    requires IsStableSortOf(sorted, Tag(items, salt, show, sha))
    ensures ShuffleItems(items, salt, show, sha) == Items(sorted)
  {
    var tagged := Tag(items, salt, show, sha);
    SortByKeyIsStableSort(tagged);
    StableSortUnique(SortByKey(tagged), sorted);
  }

  /** The salt of round `round`: `${round};${salt}`. */
  function RoundSalt(round: nat, salt: string): string
  {
    NatToString(round) + ";" + salt
  }

  /**
   * `pickShuffledItem(items, index, salt)`: position `index % n` of the
   * ordering salted with round `index / n`. With no items the source yields
   * `undefined` (a division by zero), here None.
   */
  function PickShuffledItem<T>(items: seq<T>, index: nat, salt: string, show: T -> string, sha: Sha256): (r: Option<T>)
    ensures r.Some? <==> |items| > 0
    ensures r.Some? ==> r.value in items
  {
    if |items| == 0 then None
    else
      var shuffled := ShuffleItems(items, RoundSalt(index / |items|, salt), show, sha);
      assert shuffled[index % |items|] in multiset(items);
      Some(shuffled[index % |items|])
  }

  ghost predicate Distinct<T>(s: seq<T>)
  {
    forall i, j :: 0 <= i < j < |s| ==> s[i] != s[j]
  }

  lemma MulAtLeast(d: int, n: int)
    requires d >= 1 && n > 0
    ensures d * n >= n
  {
    var k := d - 1;
    assert d * n == k * n + n;
    assert k * n >= 0;
  }

  /** Euclidean division is unique: the quotient and remainder are determined. */
  lemma DivModUnique(x: int, n: int, q: int, r: int)
    requires n > 0 && 0 <= r < n && x == q * n + r
    ensures x / n == q && x % n == r
  {
    var q', r' := x / n, x % n;
    assert x == q' * n + r';
    if q > q' {
      assert (q - q') * n == q * n - q' * n;
      MulAtLeast(q - q', n);
    } else if q < q' {
      assert (q' - q) * n == q' * n - q * n;
      MulAtLeast(q' - q, n);
    }
  }

  lemma {:induction false} DistinctCount<T>(s: seq<T>, x: T)
    requires Distinct(s)
    ensures multiset(s)[x] <= 1
  {
    if s != [] {
      assert Distinct(s[1..]);
      DistinctCount(s[1..], x);
      assert s == [s[0]] + s[1..];
      assert s[0] !in s[1..];
    }
  }

  lemma RepeatedCount<T>(s: seq<T>, i: nat, j: nat)
    requires i < j < |s| && s[i] == s[j]
    ensures multiset(s)[s[i]] >= 2
  {
    assert s == s[..j] + s[j..];
    assert s[i] in s[..j];
    assert s[j] in s[j..];
  }

  lemma PermutationDistinct<T>(a: seq<T>, b: seq<T>)
    requires multiset(a) == multiset(b) && Distinct(a)
    ensures Distinct(b)
  {
    forall i, j | 0 <= i < j < |b| ensures b[i] != b[j] {
      if b[i] == b[j] {
        RepeatedCount(b, i, j);
        DistinctCount(a, b[i]);
      }
    }
  }

  /** Two different indices of the same round have different positions. */
  lemma PositionsDiffer(i: nat, k: nat, n: nat)
    requires n > 0 && i / n == k / n && i != k
    ensures i % n != k % n
  {
  }

  /** The index in round `round` (indices r*n to r*n+n-1) at which position j is read. */
  lemma RoundIndex(n: nat, round: nat, j: nat) returns (i: nat)
    requires j < n
    ensures i / n == round && i % n == j
  {
    if round > 0 { MulAtLeast(round, n); }
    i := round * n + j;
    DivModUnique(i, n, round, j);
  }

  /**
   * The indices of one round are those with the same quotient `index / n`,
   * r*n to r*n+n-1 for round r. All of them read the same salted ordering,
   * so every item is picked at some index of every round ...
   */
  lemma PickRoundCoversItems<T>(items: seq<T>, round: nat, salt: string, show: T -> string, sha: Sha256, x: T)
    requires x in items
    ensures exists i: nat :: i / |items| == round && PickShuffledItem(items, i, salt, show, sha) == Some(x)
  {
    var shuffled := ShuffleItems(items, RoundSalt(round, salt), show, sha);
    assert x in multiset(shuffled);
    var j :| 0 <= j < |items| && shuffled[j] == x;
    var i := RoundIndex(|items|, round, j);
    assert PickShuffledItem(items, i, salt, show, sha) == Some(x);
  }

  /** ... and, when the items are distinct, at only one index of the round. */
  lemma PickRoundDistinct<T>(items: seq<T>, salt: string, show: T -> string, sha: Sha256, i: nat, k: nat)
    requires Distinct(items)
    requires |items| > 0 && i / |items| == k / |items| && i != k
    ensures PickShuffledItem(items, i, salt, show, sha) != PickShuffledItem(items, k, salt, show, sha)
  {
    var n := |items|;
    var shuffled := ShuffleItems(items, RoundSalt(i / n, salt), show, sha);
    PermutationDistinct(items, shuffled);
    PositionsDiffer(i, k, n);
  }
}
