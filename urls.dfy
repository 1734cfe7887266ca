/**
 * URL normalization and the normalized-URL deduplication that the run-wide
 * `seenUrls` set and the history merge both perform.
 */
module Urls {
  import opened Strings

  /** `normalizeUrl`: everything before the first `?`. */
  function NormalizeUrl(url: string): (r: string)
    ensures '?' !in r
    ensures |r| <= |url| && r == url[..|r|]
    ensures |r| < |url| ==> url[|r|] == '?'
  {
    if url == "" then "" else Split(url, '?')[0]
  }

  lemma NormalizeUrlIdempotent(url: string)
    ensures NormalizeUrl(NormalizeUrl(url)) == NormalizeUrl(url)
  {
    var r := NormalizeUrl(url);
    if r != "" {
      assert IndexOf(r, '?') == |r|;
    }
  }

  /** The query string never matters: `base?query` normalizes like `base`. */
  lemma {:induction false} NormalizeUrlDropsQuery(base: string, query: string)
    ensures NormalizeUrl(base + "?" + query) == NormalizeUrl(base)
  {
    var u := base + "?" + query;
    assert u == base + ("?" + query);
    IndexOfPrefix(base, "?" + query, '?');
    assert IndexOf("?" + query, '?') == 0;
    var k := IndexOf(base, '?');
    assert IndexOf(u, '?') == k;
    assert u[..k] == base[..k];
  }

  /** Two URLs that differ only after `?` normalize equal. */
  lemma SameBaseSameNormal(base: string, q1: string, q2: string)
    ensures NormalizeUrl(base + "?" + q1) == NormalizeUrl(base + "?" + q2)
  {
    NormalizeUrlDropsQuery(base, q1);
    NormalizeUrlDropsQuery(base, q2);
  }

  lemma {:induction false} IndexOfPrefix(a: string, b: string, c: char)
    ensures c in a ==> IndexOf(a + b, c) == IndexOf(a, c)
    ensures c !in a ==> IndexOf(a + b, c) == |a| + IndexOf(b, c)
  {
    if a == [] {
      assert a + b == b;
    } else {
      assert (a + b)[1..] == a[1..] + b;
      if a[0] != c {
        IndexOfPrefix(a[1..], b, c);
      }
    }
  }

  /**
   * Keeps the first element for each key, in order, skipping every element
   * whose key is already in `seen` or was kept before.
   */
  function Dedupe<T>(xs: seq<T>, key: T -> string, seen: set<string>): seq<T>
    decreases |xs|
  {
    if xs == [] then []
    else if key(xs[0]) in seen then Dedupe(xs[1..], key, seen)
    else [xs[0]] + Dedupe(xs[1..], key, seen + {key(xs[0])})
  }

  /** The keys of the elements of a sequence. */
  function Keys<T>(xs: seq<T>, key: T -> string): set<string> {
    set i | 0 <= i < |xs| :: key(xs[i])
  }

  lemma KeysCons<T>(x: T, xs: seq<T>, key: T -> string)
    ensures Keys([x] + xs, key) == {key(x)} + Keys(xs, key)
  {
    var ys := [x] + xs;
    forall k | k in Keys(ys, key) ensures k in {key(x)} + Keys(xs, key) {
      var i :| 0 <= i < |ys| && key(ys[i]) == k;
      if i > 0 {
        assert key(xs[i - 1]) == k;
      }
    }
    forall k | k in Keys(xs, key) ensures k in Keys(ys, key) {
      var i :| 0 <= i < |xs| && key(xs[i]) == k;
      assert ys[i + 1] == xs[i];
    }
    assert ys[0] == x;
  }

  lemma KeysSnoc<T>(xs: seq<T>, x: T, key: T -> string)
    ensures Keys(xs + [x], key) == Keys(xs, key) + {key(x)}
  {
    var ys := xs + [x];
    assert ys[|xs|] == x;
    forall k | k in Keys(ys, key) ensures k in Keys(xs, key) + {key(x)} {
      var i :| 0 <= i < |ys| && key(ys[i]) == k;
      if i < |xs| {
        assert ys[i] == xs[i];
      }
    }
    forall k | k in Keys(xs, key) ensures k in Keys(ys, key) {
      var i :| 0 <= i < |xs| && key(xs[i]) == k;
      assert ys[i] == xs[i];
    }
  }

  lemma KeysAppend<T>(xs: seq<T>, ys: seq<T>, key: T -> string)
    ensures Keys(xs + ys, key) == Keys(xs, key) + Keys(ys, key)
  {
    var zs := xs + ys;
    forall k | k in Keys(zs, key) ensures k in Keys(xs, key) + Keys(ys, key) {
      var i :| 0 <= i < |zs| && key(zs[i]) == k;
      if i < |xs| {
        assert zs[i] == xs[i];
      } else {
        assert zs[i] == ys[i - |xs|];
      }
    }
    forall k | k in Keys(xs, key) + Keys(ys, key) ensures k in Keys(zs, key) {
      if k in Keys(xs, key) {
        var i :| 0 <= i < |xs| && key(xs[i]) == k;
        assert zs[i] == xs[i];
      } else {
        var i :| 0 <= i < |ys| && key(ys[i]) == k;
        assert zs[|xs| + i] == ys[i];
      }
    }
  }

  predicate DistinctKeys<T>(xs: seq<T>, key: T -> string) {
    forall i, j :: 0 <= i < j < |xs| ==> key(xs[i]) != key(xs[j])
  }

  /** Two sequences with distinct keys and no key in common concatenate to one with distinct keys. */
  lemma AppendDistinct<T>(xs: seq<T>, ys: seq<T>, key: T -> string)
    requires DistinctKeys(xs, key) && DistinctKeys(ys, key) && Keys(xs, key) !! Keys(ys, key)
    ensures DistinctKeys(xs + ys, key)
  {
    var zs := xs + ys;
    forall i, j | 0 <= i < j < |zs| ensures key(zs[i]) != key(zs[j]) {
      if i < |xs| && j >= |xs| {
        assert zs[i] == xs[i] && zs[j] == ys[j - |xs|];
        assert key(zs[i]) in Keys(xs, key) && key(zs[j]) in Keys(ys, key);
      } else if i >= |xs| {
        assert zs[i] == ys[i - |xs|] && zs[j] == ys[j - |xs|];
      } else {
        assert zs[i] == xs[i] && zs[j] == xs[j];
      }
    }
  }

  /** What Dedupe keeps: distinct keys, none of them in `seen`, every one from `xs`, in order. */
  lemma {:induction false} DedupeSound<T>(xs: seq<T>, key: T -> string, seen: set<string>)
    ensures DistinctKeys(Dedupe(xs, key, seen), key)
    ensures Keys(Dedupe(xs, key, seen), key) !! seen
    ensures multiset(Dedupe(xs, key, seen)) <= multiset(xs)
    ensures |Dedupe(xs, key, seen)| <= |xs|
    decreases |xs|
  {
    if xs != [] {
      var rest := xs[1..];
      assert xs == [xs[0]] + rest;
      if key(xs[0]) in seen {
        DedupeSound(rest, key, seen);
      } else {
        var r := Dedupe(rest, key, seen + {key(xs[0])});
        DedupeSound(rest, key, seen + {key(xs[0])});
        assert Dedupe(xs, key, seen) == [xs[0]] + r;
        forall i, j | 0 <= i < j < |[xs[0]] + r|
          ensures key(([xs[0]] + r)[i]) != key(([xs[0]] + r)[j])
        {
          if i == 0 {
            assert ([xs[0]] + r)[j] in r;
          }
        }
      }
    }
  }

  /** Dedupe one element at a time: the last element is kept exactly when its key has not been seen so far. */
  lemma {:induction false} DedupeSnoc<T>(xs: seq<T>, x: T, key: T -> string, seen: set<string>)
    ensures Dedupe(xs + [x], key, seen)
         == Dedupe(xs, key, seen) + (if key(x) in seen + Keys(Dedupe(xs, key, seen), key) then [] else [x])
    decreases |xs|
  {
    if xs == [] {
      assert xs + [x] == [x];
    } else {
      var y, rest := xs[0], xs[1..];
      assert (xs + [x])[1..] == rest + [x];
      if key(y) in seen {
        DedupeSnoc(rest, x, key, seen);
      } else {
        DedupeSnoc(rest, x, key, seen + {key(y)});
        KeysCons(y, Dedupe(rest, key, seen + {key(y)}), key);
      }
    }
  }

  /** What Dedupe drops: every key of `xs` ends up in `seen` or among the kept keys. */
  lemma {:induction false} DedupeComplete<T>(xs: seq<T>, key: T -> string, seen: set<string>)
    ensures seen + Keys(Dedupe(xs, key, seen), key) == seen + Keys(xs, key)
    decreases |xs|
  {
    if xs != [] {
      var rest := xs[1..];
      assert xs == [xs[0]] + rest;
      KeysCons(xs[0], rest, key);
      if key(xs[0]) in seen {
        DedupeComplete(rest, key, seen);
      } else {
        var r := Dedupe(rest, key, seen + {key(xs[0])});
        DedupeComplete(rest, key, seen + {key(xs[0])});
        KeysCons(xs[0], r, key);
      }
    }
  }

  /** A sequence whose keys are distinct and unseen passes Dedupe unchanged. */
  lemma {:induction false} DedupeKeepsDistinct<T>(xs: seq<T>, key: T -> string, seen: set<string>)
    requires DistinctKeys(xs, key) && Keys(xs, key) !! seen
    ensures Dedupe(xs, key, seen) == xs
    decreases |xs|
  {
    if xs != [] {
      var rest := xs[1..];
      assert key(xs[0]) in Keys(xs, key);
      assert xs == [xs[0]] + rest;
      KeysCons(xs[0], rest, key);
      DedupeKeepsDistinct(rest, key, seen + {key(xs[0])});
    }
  }

  /** Deduplicating a deduplicated sequence changes nothing. */
  lemma DedupeIdempotent<T>(xs: seq<T>, key: T -> string)
    ensures Dedupe(Dedupe(xs, key, {}), key, {}) == Dedupe(xs, key, {})
  {
    DedupeSound(xs, key, {});
    DedupeKeepsDistinct(Dedupe(xs, key, {}), key, {});
  }

  /** Nothing survives when every key is already seen. */
  lemma {:induction false} DedupeAllSeen<T>(xs: seq<T>, key: T -> string, seen: set<string>)
    requires Keys(xs, key) <= seen
    ensures Dedupe(xs, key, seen) == []
    decreases |xs|
  {
    if xs != [] {
      assert xs[0] in xs;
      assert Keys(xs[1..], key) <= Keys(xs, key);
      DedupeAllSeen(xs[1..], key, seen);
    }
  }

  /** Dedupe keeps more than one element exactly when the input has two different keys. */
  lemma DedupeMoreThanOne<T>(xs: seq<T>, key: T -> string)
    ensures |Dedupe(xs, key, {})| > 1 <==> exists i, j :: 0 <= i < |xs| && 0 <= j < |xs| && key(xs[i]) != key(xs[j])
  {
    var d := Dedupe(xs, key, {});
    DedupeSound(xs, key, {});
    DedupeComplete(xs, key, {});
    if |d| > 1 {
      assert key(d[0]) != key(d[1]);
      assert d[0] in multiset(xs) && d[1] in multiset(xs);
      var i :| 0 <= i < |xs| && xs[i] == d[0];
      var j :| 0 <= j < |xs| && xs[j] == d[1];
      assert key(xs[i]) != key(xs[j]);
    }
    if exists i, j :: 0 <= i < |xs| && 0 <= j < |xs| && key(xs[i]) != key(xs[j]) {
      var i, j :| 0 <= i < |xs| && 0 <= j < |xs| && key(xs[i]) != key(xs[j]);
      assert key(xs[i]) in Keys(d, key) && key(xs[j]) in Keys(d, key);
      var p :| 0 <= p < |d| && key(d[p]) == key(xs[i]);
      var q :| 0 <= q < |d| && key(d[q]) == key(xs[j]);
      assert p != q;
    }
  }
}
