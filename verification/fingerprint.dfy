/**
 The request fingerprint: method, path and the sorted query tokens form a raw
 key, whose SHA-256 digest, hex-encoded, is the cache key.

 SHA-256 is not modelled: every function here that needs it takes the digest
 function as a parameter `sha256`, which receives the raw key (its UTF-8
 bytes, in the source) and returns 32 bytes.
 */
module Fingerprint {
  import opened Wrappers
  import opened Hex
  import opened Http
  import opened StringOrder
  import opened SeqFacts

  type Digest = d: seq<byte> | |d| == 32 witness seq(32, _ => 0)

  /** The token for one query value: `name=value`. */
  function Token(name: string, value: string): string {
    name + "=" + value
  }

  /** One token per value of one parameter, in the values' order. */
  function KeyTokens(name: string, values: seq<string>): (r: seq<string>)
    ensures |r| == |values|
    ensures forall i :: 0 <= i < |values| ==> r[i] == Token(name, values[i])
    decreases |values|
  {
    if |values| == 0 then [] else [Token(name, values[0])] + KeyTokens(name, values[1..])
  }

  /** The tokens of every parameter, visiting the parameters in `order`. */
  function Flatten(q: Values, order: seq<string>): seq<string>
    requires forall k :: k in order ==> k in q
    decreases |order|
  {
    if |order| == 0 then [] else KeyTokens(order[0], q[order[0]]) + Flatten(q, order[1..])
  }

  /** The query string: the tokens sorted byte-wise and joined with `&`. */
  function QueryString(q: Values, order: seq<string>): string
    requires IsIterationOrder(order, q)
  {
    Join(Sort(Flatten(q, order)), "&")
  }

  /** The raw key `METHOD_PATH?QUERY`. */
  function RawKey(req: Request, order: seq<string>): string
    requires IsIterationOrder(order, req.query)
  {
    req.verb + "_" + req.path + "?" + QueryString(req.query, order)
  }

  /** The cache key: 64 lower-case hex digits that decode to the digest of the raw key. */
  function GetHashKey(req: Request, order: seq<string>, sha256: string -> Digest): (r: string)
    requires IsIterationOrder(order, req.query)
    ensures |r| == 64
    ensures forall i :: 0 <= i < |r| ==> IsHexDigit(r[i])
    ensures Decode(r) == Some(sha256(RawKey(req, order)))
  {
    var digest := sha256(RawKey(req, order));
    DecodeEncode(digest);
    Encode(digest)
  }

  /** Two queries with the same names and, per name, the same values in any order. */
  ghost predicate SameParameters(q1: Values, q2: Values) {
    && q1.Keys == q2.Keys
    && forall k :: k in q1 ==> multiset(q1[k]) == multiset(q2[k])
  }

  lemma {:induction false} KeyTokensAppend(name: string, a: seq<string>, b: seq<string>)
    ensures KeyTokens(name, a + b) == KeyTokens(name, a) + KeyTokens(name, b)
  {
  }

  /** Removing the value at `j` removes exactly its token. */
  lemma KeyTokensRemove(name: string, b: seq<string>, j: int)
    requires 0 <= j < |b|
    ensures multiset(KeyTokens(name, b))
         == multiset(KeyTokens(name, b[..j] + b[j + 1..])) + multiset{Token(name, b[j])}
  {
    assert b == b[..j] + [b[j]] + b[j + 1..];
    KeyTokensAppend(name, b[..j] + [b[j]], b[j + 1..]);
    KeyTokensAppend(name, b[..j], [b[j]]);
    KeyTokensAppend(name, b[..j], b[j + 1..]);
  }

  /** Reordering a parameter's values permutes its tokens. */
  lemma {:induction false} KeyTokensPermutation(name: string, a: seq<string>, b: seq<string>)
    requires multiset(a) == multiset(b)
    ensures multiset(KeyTokens(name, a)) == multiset(KeyTokens(name, b))
    decreases |a|
  {
    if |a| == 0 {
      assert |multiset(b)| == 0;
    } else {
      assert a[0] in multiset(b);
      var j :| 0 <= j < |b| && b[j] == a[0];
      var b' := b[..j] + b[j + 1..];
      RemoveOne(a, b, j);
      KeyTokensPermutation(name, a[1..], b');
      KeyTokensRemove(name, b, j);
      assert KeyTokens(name, a) == [Token(name, a[0])] + KeyTokens(name, a[1..]);
      calc {
        multiset(KeyTokens(name, a));
        multiset{Token(name, a[0])} + multiset(KeyTokens(name, a[1..]));
        multiset{Token(name, b[j])} + multiset(KeyTokens(name, b'));
        multiset(KeyTokens(name, b));
      }
    }
  }

  lemma {:induction false} FlattenAppend(q: Values, a: seq<string>, b: seq<string>)
    requires forall k :: k in a + b ==> k in q
    ensures Flatten(q, a + b) == Flatten(q, a) + Flatten(q, b)
    decreases |a|
  {
    if |a| > 0 {
      assert (a + b)[0] == a[0];
      assert (a + b)[1..] == a[1..] + b;
      FlattenAppend(q, a[1..], b);
    } else {
      assert a + b == b;
    }
  }

  /** Removing the parameter at `j` from the visiting order removes exactly its tokens. */
  lemma FlattenRemove(q: Values, b: seq<string>, j: int)
    requires forall k :: k in b ==> k in q
    requires 0 <= j < |b|
    ensures forall k :: k in b[..j] + b[j + 1..] ==> k in q
    ensures multiset(Flatten(q, b))
         == multiset(Flatten(q, b[..j] + b[j + 1..])) + multiset(KeyTokens(b[j], q[b[j]]))
  {
    assert b == b[..j] + [b[j]] + b[j + 1..];
    FlattenAppend(q, b[..j] + [b[j]], b[j + 1..]);
    FlattenAppend(q, b[..j], [b[j]]);
    FlattenAppend(q, b[..j], b[j + 1..]);
    assert Flatten(q, [b[j]]) == KeyTokens(b[j], q[b[j]]) + Flatten(q, []);
  }

  /**
   Visiting the parameters in another order, or any parameter's values in
   another order, permutes the tokens.
   */
  lemma {:induction false} FlattenPermutation(q1: Values, q2: Values, a: seq<string>, b: seq<string>)
    requires SameParameters(q1, q2)
    requires forall k :: k in a ==> k in q1
    requires multiset(a) == multiset(b)
    ensures forall k :: k in b ==> k in q2
    ensures multiset(Flatten(q1, a)) == multiset(Flatten(q2, b))
    decreases |a|
  {
    assert forall k :: k in b ==> k in q2 by {
      forall k | k in b ensures k in q2 {
        assert k in multiset(b);
      }
    }
    if |a| == 0 {
      assert |multiset(b)| == 0;
    } else {
      assert a[0] in multiset(b);
      var j :| 0 <= j < |b| && b[j] == a[0];
      RemoveOne(a, b, j);
      FlattenPermutation(q1, q2, a[1..], b[..j] + b[j + 1..]);
      KeyTokensPermutation(a[0], q1[a[0]], q2[a[0]]);
      FlattenRemove(q2, b, j);
    }
  }

  /**
   A token occurs in the flattening exactly when it is `name=value` for some
   visited parameter and one of its values.
   */
  lemma {:induction false} FlattenMembership(q: Values, order: seq<string>, t: string)
    requires forall k :: k in order ==> k in q
    ensures t in Flatten(q, order) <==>
      exists i, j :: 0 <= i < |order| && 0 <= j < |q[order[i]]| && t == Token(order[i], q[order[i]][j])
    decreases |order|
  {
    if |order| > 0 {
      FlattenMembership(q, order[1..], t);
      var kt := KeyTokens(order[0], q[order[0]]);
      if t in kt {
        var j :| 0 <= j < |kt| && kt[j] == t;
        assert 0 <= 0 < |order| && 0 <= j < |q[order[0]]| && t == Token(order[0], q[order[0]][j]);
      }
      if exists i, j :: 0 <= i < |order| && 0 <= j < |q[order[i]]| && t == Token(order[i], q[order[i]][j]) {
        var i, j :| 0 <= i < |order| && 0 <= j < |q[order[i]]| && t == Token(order[i], q[order[i]][j]);
        if i == 0 {
          assert kt[j] == t;
        } else {
          assert order[1..][i - 1] == order[i];
        }
      }
    }
  }

  /**
   The query string is the `&`-join of THE sorted arrangement of the query's
   tokens, whichever order the parameters were visited in.
   */
  lemma QueryStringIsSortedJoin(q: Values, order: seq<string>, ts: seq<string>)
    requires IsIterationOrder(order, q)
    requires Sorted(ts) && multiset(ts) == multiset(Flatten(q, order))
    ensures QueryString(q, order) == Join(ts, "&")
  {
    SortedUnique(Sort(Flatten(q, order)), ts);
  }

  /**
   Requests with the same method, path and parameters (names and values in
   any order) share a raw key and a cache key, whatever their headers or
   bodies and whichever order the map is iterated in.
   */
  lemma HashKeyOrderInsensitive(r1: Request, r2: Request, o1: seq<string>, o2: seq<string>,
                                sha256: string -> Digest)
    requires IsIterationOrder(o1, r1.query) && IsIterationOrder(o2, r2.query)
    requires r1.verb == r2.verb && r1.path == r2.path
    requires SameParameters(r1.query, r2.query)
    ensures RawKey(r1, o1) == RawKey(r2, o2)
    ensures GetHashKey(r1, o1, sha256) == GetHashKey(r2, o2, sha256)
  {
    IterationOrdersPermute(o1, o2, r1.query);
    FlattenPermutation(r1.query, r2.query, o1, o2);
    SortPermutationInvariant(Flatten(r1.query, o1), Flatten(r2.query, o2));
  }

  /** The cache key depends on the request only through its raw key. */
  lemma HashKeyDeterminedByRawKey(r1: Request, r2: Request, o1: seq<string>, o2: seq<string>,
                                  sha256: string -> Digest)
    requires IsIterationOrder(o1, r1.query) && IsIterationOrder(o2, r2.query)
    requires RawKey(r1, o1) == RawKey(r2, o2)
    ensures GetHashKey(r1, o1, sha256) == GetHashKey(r2, o2, sha256)
  {
  }

  /**
   The raw key does not tell its parameters apart: name `a=b` with value `c`
   and name `a` with value `b=c` give the same raw key, hence the same cache key.
   */
  lemma RawKeyNotInjective(sha256: string -> Digest)
    ensures var r1 := Request("GET", "/p", map["a=b" := ["c"]], map[], []);
      var r2 := Request("GET", "/p", map["a" := ["b=c"]], map[], []);
      && r1 != r2
      && RawKey(r1, ["a=b"]) == RawKey(r2, ["a"]) == "GET_/p?a=b=c"
      && GetHashKey(r1, ["a=b"], sha256) == GetHashKey(r2, ["a"], sha256)
  {
    var r1 := Request("GET", "/p", map["a=b" := ["c"]], map[], []);
    var r2 := Request("GET", "/p", map["a" := ["b=c"]], map[], []);
    assert r1.query != r2.query by {
      assert "a" !in r1.query;
    }
    assert Token("a=b", "c") == "a=b=c" == Token("a", "b=c");
    assert KeyTokens("a=b", ["c"]) == ["a=b=c"];
    assert KeyTokens("a", ["b=c"]) == ["a=b=c"];
    assert Flatten(r1.query, ["a=b"]) == ["a=b=c"];
    assert Flatten(r2.query, ["a"]) == ["a=b=c"];
    assert Sort(["a=b=c"]) == ["a=b=c"];
  }
}
