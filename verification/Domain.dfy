/** Vocabulary shared by every component of the search service. */
module Domain {
  datatype Option<+T> = None | Some(value: T)

  /** The outcome of one upstream attempt. `Unset` is the empty classification string. */
  datatype Classification =
    | Unset
    | Normal
    | Empty
    | Captcha
    | RateLimited
    | Blocked
    | ParseChanged
    | Timeout
    | NetworkError

  /** The codes of a failed search. `RateLimitHit` is the code of a rate limit. */
  datatype ErrorCode =
    | InvalidRequest
    | ProviderNotFound
    | RateLimitHit
    | UpstreamChanged
    | CaptchaRequired
    | ProviderUnavailable
    | ProviderBusy
    | CapacityExhausted
    | QueueFull
    | UpstreamTimeout

  // Durations and instants are integer nanoseconds.
  const SECOND: int := 1_000_000_000
  const MINUTE: int := 60 * SECOND

  function Min(a: int, b: int): int {
    if a <= b then a else b
  }

  function Max(a: int, b: int): int {
    if a <= b then b else a
  }

  /** `r` is a fraction of a non-negative amount. */
  lemma Fraction(a: real, part: real, r: real)
    requires 0.0 <= a && 0.0 <= part <= 1.0 && r == a * part
    ensures 0.0 <= r <= a
  {
    var rest := a * (1.0 - part);
    assert rest >= 0.0;
  }
}

/** Lists without repetition, and their elements. */
module Sequences {
  ghost predicate Distinct<T>(xs: seq<T>) {
    forall i, j :: 0 <= i < j < |xs| ==> xs[i] != xs[j]
  }

  ghost function Elements<T>(xs: seq<T>): set<T> {
    set x | x in xs
  }

  lemma {:induction false} ElementsSize<T>(xs: seq<T>)
    ensures |Elements(xs)| <= |xs|
    ensures Distinct(xs) ==> |Elements(xs)| == |xs|
  {
    if xs == [] {
      assert Elements(xs) == {};
    } else {
      var rest := xs[1..];
      ElementsSize(rest);
      assert Elements(xs) == {xs[0]} + Elements(rest);
      if Distinct(xs) {
        assert forall k :: 0 <= k < |rest| ==> rest[k] == xs[k + 1];
      }
    }
  }

  lemma SubsetSize<T>(a: set<T>, b: set<T>)
    requires a <= b
    ensures |a| <= |b|
  {
    assert b == a + (b - a);
  }
}

/** The byte-wise order on strings that Go's `<` and `sort.Strings` use. */
module StringOrder {
  predicate Less(a: string, b: string) {
    |b| != 0 && (|a| == 0 || a[0] < b[0] || (a[0] == b[0] && Less(a[1..], b[1..])))
  }

  /** The strings agree up to `k`, where `a` has ended or has the smaller character. */
  predicate LessAt(a: string, b: string, k: nat) {
    && k <= |a| && k < |b| && a[..k] == b[..k]
    && (k == |a| || a[k] < b[k])
  }

  /** The first difference decides, and a proper prefix comes first. */
  lemma {:induction false} LessMeans(a: string, b: string)
    ensures Less(a, b) <==> exists k: nat :: LessAt(a, b, k)
  {
    forall k: nat | 0 < k <= |a| && k <= |b| && a[..k] == b[..k] ensures a[0] == b[0] {
      assert a[..k][0] == b[..k][0];
    }
    if b != "" {
      if a == "" || a[0] < b[0] {
        assert LessAt(a, b, 0);
      } else if a[0] == b[0] {
        LessMeans(a[1..], b[1..]);
        if exists k: nat :: LessAt(a[1..], b[1..], k) {
          var k: nat :| LessAt(a[1..], b[1..], k);
          assert a[..k + 1] == [a[0]] + a[1..][..k] && b[..k + 1] == [b[0]] + b[1..][..k];
          assert LessAt(a, b, k + 1);
        }
        if exists k: nat :: LessAt(a, b, k) {
          var k: nat :| LessAt(a, b, k);
          assert k > 0 && a[1..][..k - 1] == a[..k][1..] && b[1..][..k - 1] == b[..k][1..];
          assert LessAt(a[1..], b[1..], k - 1);
        }
      }
    }
  }

  lemma {:induction false} LessIrreflexive(a: string)
    ensures !Less(a, a)
  {
    if a != "" {
      LessIrreflexive(a[1..]);
    }
  }

  lemma {:induction false} LessTransitive(a: string, b: string, c: string)
    requires Less(a, b) && Less(b, c)
    ensures Less(a, c)
  {
    if a != "" && a[0] == b[0] && b[0] == c[0] {
      LessTransitive(a[1..], b[1..], c[1..]);
    }
  }

  lemma {:induction false} LessTotal(a: string, b: string)
    ensures a == b || Less(a, b) || Less(b, a)
  {
    if a != "" && b != "" && a[0] == b[0] {
      LessTotal(a[1..], b[1..]);
      if a[1..] == b[1..] {
        assert a == [a[0]] + a[1..] && b == [b[0]] + b[1..];
      }
    }
  }
}
