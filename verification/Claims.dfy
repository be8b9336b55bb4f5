/** Capsule claims and the bounded, de-duplicated window every capsule carries
    (core/active_context_capsule.py, `_unique_claims`).

    A window keeps, for each content hash, only the LAST claim stating it, in the order of those
    last statements, and of these only the most recent `k`. The results here say that such a window
    can be carried from turn to turn without the history behind it. */
module Claims {
  import opened Wrappers

  datatype CapsuleClaim = CapsuleClaim(text: string, sourceType: string, sourceId: string, contentHash: string)

  predicate Mentions(claims: seq<CapsuleClaim>, hash: string) {
    exists i :: 0 <= i < |claims| && claims[i].contentHash == hash
  }

  /** The claims not restated by a later claim, in order. */
  function LastOccurrences(claims: seq<CapsuleClaim>): seq<CapsuleClaim> {
    if claims == [] then []
    else if Mentions(claims[1..], claims[0].contentHash) then LastOccurrences(claims[1..])
    else [claims[0]] + LastOccurrences(claims[1..])
  }

  function Window(claims: seq<CapsuleClaim>, k: nat): seq<CapsuleClaim> {
    Last(LastOccurrences(claims), k)
  }

  /** The loop over `reversed(claims)`, with its early exit once enough claims are selected. */
  method UniqueClaims(claims: seq<CapsuleClaim>, limit: int) returns (kept: seq<CapsuleClaim>)
    ensures kept == Window(claims, Max(1, limit))
  {
    var selected: seq<CapsuleClaim> := [];
    var seen: set<string> := {};
    var i := |claims|;
    while i > 0
      invariant 0 <= i <= |claims|
      invariant seen == Hashes(claims[i..])
      invariant Reversed(selected) == LastOccurrences(claims[i..])
      invariant |selected| < Max(1, limit)
    {
      i := i - 1;
      var claim := claims[i];
      SuffixStep(claims, i);
      if claim.contentHash in seen {
        continue;
      }
      seen := seen + {claim.contentHash};
      ReversedAppend(selected, claim);
      selected := selected + [claim];
      if |selected| >= Max(1, limit) {
        break;
      }
    }
    kept := Reversed(selected);
    WindowOfSuffix(claims, i, Max(1, limit));
  }

  /** Once the claims from `i` on fill the window, or there are no others, they determine it. */
  lemma WindowOfSuffix(claims: seq<CapsuleClaim>, i: nat, k: nat)
    requires i <= |claims| && |LastOccurrences(claims[i..])| <= k && (i == 0 || |LastOccurrences(claims[i..])| == k)
    ensures Window(claims, k) == LastOccurrences(claims[i..])
  {
    LastOccurrencesOfSuffix(claims, i);
    assert claims[0..] == claims;
  }

  lemma ReversedAppend(s: seq<CapsuleClaim>, c: CapsuleClaim)
    ensures Reversed(s + [c]) == [c] + Reversed(s)
  {
  }

  function Hashes(claims: seq<CapsuleClaim>): set<string> {
    if claims == [] then {} else {claims[0].contentHash} + Hashes(claims[1..])
  }

  lemma {:induction false} HashesAreMentioned(claims: seq<CapsuleClaim>, h: string)
    ensures h in Hashes(claims) <==> Mentions(claims, h)
  {
    if claims != [] {
      HashesAreMentioned(claims[1..], h);
      if j :| 0 <= j < |claims[1..]| && claims[1..][j].contentHash == h {
        assert claims[j + 1].contentHash == h;
      }
      if j :| 0 < j < |claims| && claims[j].contentHash == h {
        assert claims[1..][j - 1].contentHash == h;
      }
    }
  }

  lemma SuffixStep(claims: seq<CapsuleClaim>, i: nat)
    requires i < |claims|
    ensures LastOccurrences(claims[i..]) == if claims[i].contentHash in Hashes(claims[i + 1..])
              then LastOccurrences(claims[i + 1..]) else [claims[i]] + LastOccurrences(claims[i + 1..])
    ensures Hashes(claims[i..]) == Hashes(claims[i + 1..]) + {claims[i].contentHash}
  {
    assert claims[i..][0] == claims[i] && claims[i..][1..] == claims[i + 1..];
    HashesAreMentioned(claims[i + 1..], claims[i].contentHash);
  }

  lemma {:induction false} LastOccurrencesOfSuffix(claims: seq<CapsuleClaim>, i: nat)
    requires i <= |claims|
    ensures var all, tail := LastOccurrences(claims), LastOccurrences(claims[i..]);
            |tail| <= |all| && all[|all| - |tail|..] == tail
  {
    if i == 0 {
      assert claims[0..] == claims;
    } else {
      LastOccurrencesOfSuffix(claims[1..], i - 1);
      assert claims[1..][i - 1..] == claims[i..];
    }
  }

  // ----- what the window is -----

  ghost predicate IsLastOccurrence(claims: seq<CapsuleClaim>, p: int) {
    0 <= p < |claims| && forall j :: p < j < |claims| ==> claims[j].contentHash != claims[p].contentHash
  }

  /** `kept` reads off `claims` at the increasing positions `at`. */
  ghost predicate SelectedAt(claims: seq<CapsuleClaim>, kept: seq<CapsuleClaim>, at: seq<nat>) {
    && |at| == |kept|
    && (forall j :: 0 <= j < |at| ==> at[j] < |claims| && claims[at[j]] == kept[j])
    && Increasing(at)
  }

  /** The last-occurrence positions from `i` on, in order. */
  ghost function PositionsFrom(claims: seq<CapsuleClaim>, i: nat): seq<nat>
    requires i <= |claims|
    decreases |claims| - i
  {
    if i == |claims| then []
    else if Mentions(claims[i + 1..], claims[i].contentHash) then PositionsFrom(claims, i + 1)
    else [i] + PositionsFrom(claims, i + 1)
  }

  lemma MentionsLater(claims: seq<CapsuleClaim>, i: nat)
    requires i < |claims|
    ensures Mentions(claims[i + 1..], claims[i].contentHash) <==> !IsLastOccurrence(claims, i)
  {
    var tail := claims[i + 1..];
    forall j | i < j < |claims| ensures claims[j] == tail[j - i - 1] {}
  }

  lemma {:induction false} PositionsAreLastOccurrences(claims: seq<CapsuleClaim>, i: nat)
    requires i <= |claims|
    ensures forall p :: p in PositionsFrom(claims, i) <==> i <= p && IsLastOccurrence(claims, p)
    ensures Increasing(PositionsFrom(claims, i))
    decreases |claims| - i
  {
    if i < |claims| {
      PositionsAreLastOccurrences(claims, i + 1);
      MentionsLater(claims, i);
      var rest := PositionsFrom(claims, i + 1);
      forall n | 0 <= n < |rest| ensures i < rest[n] {
        assert rest[n] in rest;
      }
      IncreasingPrepend(i, rest);
    }
  }

  lemma {:induction false} PositionsSelectLastOccurrences(claims: seq<CapsuleClaim>, i: nat)
    requires i <= |claims|
    ensures var at, kept := PositionsFrom(claims, i), LastOccurrences(claims[i..]);
            |at| == |kept| && forall j :: 0 <= j < |at| ==> at[j] < |claims| && claims[at[j]] == kept[j]
    decreases |claims| - i
  {
    if i < |claims| {
      PositionsSelectLastOccurrences(claims, i + 1);
      assert claims[i..][0] == claims[i] && claims[i..][1..] == claims[i + 1..];
    }
  }

  /** What `Last` leaves out of an increasing sequence is smaller than everything it keeps. */
  lemma LeftOutIsOlder(all: seq<nat>, k: nat, p: nat)
    requires Increasing(all)
    requires p in all && p !in Last(all, k)
    ensures |Last(all, k)| == k && forall q :: q in Last(all, k) ==> p < q
  {
    var at := Last(all, k);
    var cut := |all| - |at|;
    forall n | cut <= n < |all| ensures all[n] in at {
      assert at[n - cut] == all[n];
    }
    var j :| 0 <= j < |all| && all[j] == p;
    forall q | q in at ensures p < q {
      var n :| 0 <= n < |at| && at[n] == q;
      assert all[cut + n] == q;
    }
  }

  /** The window is exactly the most recent distinct claims, in the order of their last occurrence: it reads
      off `claims` at last occurrences only, and it skips one only when it is full and that one is older. */
  lemma WindowIsMostRecentDistinct(claims: seq<CapsuleClaim>, k: nat) returns (at: seq<nat>)
    ensures SelectedAt(claims, Window(claims, k), at)
    ensures forall p :: p in at ==> IsLastOccurrence(claims, p)
    ensures forall p: nat :: IsLastOccurrence(claims, p) && p !in at ==> |at| == k && forall q :: q in at ==> p < q
  {
    var all := PositionsFrom(claims, 0);
    PositionsAreLastOccurrences(claims, 0);
    PositionsSelectLastOccurrences(claims, 0);
    assert claims[0..] == claims;
    at := Last(all, k);
    forall p: nat | IsLastOccurrence(claims, p) && p !in at
      ensures |at| == k && forall q :: q in at ==> p < q
    {
      assert p in all;
      LeftOutIsOlder(all, k, p);
    }
  }

  // ----- carrying the window forward -----

  function Without(claims: seq<CapsuleClaim>, hash: string): seq<CapsuleClaim> {
    if claims == [] then []
    else if claims[0].contentHash == hash then Without(claims[1..], hash)
    else [claims[0]] + Without(claims[1..], hash)
  }

  /** No hash is stated twice. */
  predicate AllDistinct(claims: seq<CapsuleClaim>) {
    forall i, j :: 0 <= i < j < |claims| ==> claims[i].contentHash != claims[j].contentHash
  }

  lemma {:induction false} MentionsAppend(a: seq<CapsuleClaim>, c: CapsuleClaim, h: string)
    ensures Mentions(a + [c], h) <==> Mentions(a, h) || c.contentHash == h
  {
    if Mentions(a, h) {
      var i :| 0 <= i < |a| && a[i].contentHash == h;
      assert (a + [c])[i] == a[i];
    }
    assert (a + [c])[|a|] == c;
  }

  lemma {:induction false} LastOccurrencesAppend(a: seq<CapsuleClaim>, c: CapsuleClaim)
    ensures LastOccurrences(a + [c]) == Without(LastOccurrences(a), c.contentHash) + [c]
  {
    if a == [] {
      assert a + [c] == [c];
    } else {
      assert (a + [c])[1..] == a[1..] + [c] && (a + [c])[0] == a[0];
      LastOccurrencesAppend(a[1..], c);
      MentionsAppend(a[1..], c, a[0].contentHash);
      if !Mentions(a[1..], a[0].contentHash) {
        var rest := LastOccurrences(a[1..]);
        assert ([a[0]] + rest)[1..] == rest;
      }
    }
  }

  lemma LastOccurrencesAreDistinct(a: seq<CapsuleClaim>)
    ensures AllDistinct(LastOccurrences(a))
  {
    var at := PositionsFrom(a, 0);
    PositionsAreLastOccurrences(a, 0);
    PositionsSelectLastOccurrences(a, 0);
    assert a[0..] == a;
    forall i, j | 0 <= i < j < |at| ensures a[at[i]].contentHash != a[at[j]].contentHash {
      assert at[i] in at && IsLastOccurrence(a, at[i]);
    }
  }

  lemma {:induction false} DistinctIsItself(a: seq<CapsuleClaim>)
    requires AllDistinct(a)
    ensures LastOccurrences(a) == a
  {
    if a != [] {
      DistinctIsItself(a[1..]);
      assert !Mentions(a[1..], a[0].contentHash) by {
        forall j | 0 <= j < |a[1..]| ensures a[1..][j].contentHash != a[0].contentHash {
          assert a[1..][j] == a[j + 1];
        }
      }
      assert a == [a[0]] + a[1..];
    }
  }

  lemma {:induction false} WithoutAbsent(x: seq<CapsuleClaim>, h: string)
    requires !Mentions(x, h)
    ensures Without(x, h) == x
  {
    if x != [] {
      assert x[0].contentHash != h;
      assert !Mentions(x[1..], h) by {
        forall j | 0 <= j < |x[1..]| ensures x[1..][j].contentHash != h {
          assert x[1..][j] == x[j + 1];
        }
      }
      WithoutAbsent(x[1..], h);
      assert x == [x[0]] + x[1..];
    }
  }

  lemma {:induction false} WithoutConcat(a: seq<CapsuleClaim>, b: seq<CapsuleClaim>, h: string)
    ensures Without(a + b, h) == Without(a, h) + Without(b, h)
  {
    if a == [] {
      assert a + b == b;
    } else {
      assert (a + b)[0] == a[0] && (a + b)[1..] == a[1..] + b;
      WithoutConcat(a[1..], b, h);
    }
  }

  lemma {:induction false} WithoutDropsOne(x: seq<CapsuleClaim>, h: string)
    requires AllDistinct(x)
    ensures |Without(x, h)| + 1 >= |x|
  {
    if x != [] {
      if x[0].contentHash == h {
        WithoutAbsent(x[1..], h);
      } else {
        WithoutDropsOne(x[1..], h);
      }
    }
  }

  lemma LastOfSplit(x: seq<CapsuleClaim>, w: seq<CapsuleClaim>, rest: seq<CapsuleClaim>, c: CapsuleClaim, k: nat)
    requires x == rest + w && k <= |w| + 1
    ensures Last(x + [c], k) == Last(w + [c], k)
  {
    assert x + [c] == rest + (w + [c]);
  }

  /** Dropping a hash and adding one claim sees only the last `k` distinct claims. */
  lemma LastWithout(x: seq<CapsuleClaim>, c: CapsuleClaim, k: nat)
    requires AllDistinct(x) && 1 <= k
    ensures Last(Without(x, c.contentHash) + [c], k) == Last(Without(Last(x, k), c.contentHash) + [c], k)
  {
    var h := c.contentHash;
    if |x| > k {
      var older, w := x[..|x| - k], x[|x| - k..];
      assert x == older + w;
      WithoutConcat(older, w, h);
      WithoutDropsOne(w, h);
      LastOfSplit(Without(x, h), Without(w, h), Without(older, h), c, k);
    }
  }

  lemma WindowAppend(a: seq<CapsuleClaim>, c: CapsuleClaim, k: nat)
    requires 1 <= k
    ensures Window(a + [c], k) == Last(Without(Window(a, k), c.contentHash) + [c], k)
  {
    LastOccurrencesAppend(a, c);
    LastOccurrencesAreDistinct(a);
    LastWithout(LastOccurrences(a), c, k);
  }

  /** A window is its own window. */
  lemma WindowIdempotent(a: seq<CapsuleClaim>, k: nat)
    ensures Window(Window(a, k), k) == Window(a, k)
  {
    LastOccurrencesAreDistinct(a);
    DistinctIsItself(Window(a, k));
  }

  /** Nothing is lost by carrying only the window: recomputing over the window and the new claims
      gives the window over the whole history. */
  lemma {:induction false} CarriedWindowIsBatchWindow(a: seq<CapsuleClaim>, b: seq<CapsuleClaim>, k: nat)
    requires 1 <= k
    ensures Window(Window(a, k) + b, k) == Window(a + b, k)
  {
    if b == [] {
      assert Window(a, k) + b == Window(a, k) && a + b == a;
      WindowIdempotent(a, k);
    } else {
      var w, init, c := Window(a, k), b[..|b| - 1], b[|b| - 1];
      assert w + b == (w + init) + [c] && a + b == (a + init) + [c];
      CarriedWindowIsBatchWindow(a, init, k);
      WindowAppend(w + init, c, k);
      WindowAppend(a + init, c, k);
    }
  }
}
