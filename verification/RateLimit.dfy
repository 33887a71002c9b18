/**
 Per-key sliding-window rate limiting (btx_platform/ratelimit.py).

 The limiter keeps only a pruned bucket per key.  The reference limiter below keeps every
 accepted time for ever and counts the ones inside the window.  The theorems say that the two
 take the same decisions, and that the cap holds over every closed interval of one window length.
 */
module RateLimit {

  datatype Call = Call(key: string, now: real)
  datatype Decision = Decision(hits: map<string, seq<real>>, allowed: bool)
  datatype Admission = Admission(bucket: seq<real>, allowed: bool)

  function Bucket(hits: map<string, seq<real>>, key: string): seq<real> {
    if key in hits then hits[key] else []
  }

  /** What is left after popping every leading time before the cutoff. */
  function Prune(bucket: seq<real>, cutoff: real): seq<real> {
    if bucket != [] && bucket[0] < cutoff then Prune(bucket[1..], cutoff) else bucket
  }

  /** One call, as a function of its key's bucket. */
  function Admit(maxRequests: int, window: real, bucket: seq<real>, now: real): Admission {
    var kept := Prune(bucket, now - window);
    if |kept| >= maxRequests then Admission(kept, false) else Admission(kept + [now], true)
  }

  function AllowStep(maxRequests: int, window: real, hits: map<string, seq<real>>, call: Call): Decision {
    var a := Admit(maxRequests, window, Bucket(hits, call.key), call.now);
    Decision(hits[call.key := a.bucket], a.allowed)
  }

  class RateLimiter {
    const maxRequests: int
    const windowSeconds: real
    var hits: map<string, seq<real>>

    constructor (maxRequests: int, windowSeconds: real)
      ensures this.maxRequests == maxRequests && this.windowSeconds == windowSeconds
      ensures hits == map[]
    {
      this.maxRequests := maxRequests;
      this.windowSeconds := windowSeconds;
      hits := map[];
    }

    method Allow(key: string, now: real) returns (allowed: bool)
      modifies this
      ensures Decision(hits, allowed) == AllowStep(maxRequests, windowSeconds, old(hits), Call(key, now))
      ensures forall other :: other != key ==> Bucket(hits, other) == Bucket(old(hits), other)
    {
      if key !in hits {
        hits := hits[key := []];
      }
      var cutoff := now - windowSeconds;
      while hits[key] != [] && hits[key][0] < cutoff
        invariant key in hits && hits == old(hits)[key := hits[key]]
        invariant Prune(hits[key], cutoff) == Prune(Bucket(old(hits), key), cutoff)
        decreases |hits[key]|
      {
        hits := hits[key := hits[key][1..]];
      }
      if |hits[key]| >= maxRequests {
        return false;
      }
      hits := hits[key := hits[key] + [now]];
      return true;
    }
  }

  /******* The reference limiter *******/

  /** The times of a history that lie in the closed interval from lo to hi, in order. */
  function Window(history: seq<real>, lo: real, hi: real): seq<real> {
    if history == [] then []
    else (if lo <= history[0] <= hi then [history[0]] else []) + Window(history[1..], lo, hi)
  }

  function Extend(history: seq<real>, allowed: bool, now: real): seq<real> {
    if allowed then history + [now] else history
  }

  /** The reference decision: count the whole history. */
  function Remember(maxRequests: int, window: real, history: seq<real>, now: real): seq<real> {
    Extend(history, |Window(history, now - window, now)| < maxRequests, now)
  }

  /** The accepted times of one key when every accepted time is remembered. */
  function Accepted(maxRequests: int, window: real, calls: seq<Call>, key: string): seq<real> {
    if calls == [] then []
    else
      var history := Accepted(maxRequests, window, calls[..|calls| - 1], key);
      var last := calls[|calls| - 1];
      if last.key == key then Remember(maxRequests, window, history, last.now) else history
  }

  /** The buckets after a run of the real limiter. */
  function RunHits(maxRequests: int, window: real, calls: seq<Call>): map<string, seq<real>> {
    if calls == [] then map[]
    else AllowStep(maxRequests, window, RunHits(maxRequests, window, calls[..|calls| - 1]), calls[|calls| - 1]).hits
  }

  /** The clock passed to the limiter never goes back. */
  predicate NonDecreasing(calls: seq<Call>) {
    forall i, j :: 0 <= i < j < |calls| ==> calls[i].now <= calls[j].now
  }

  predicate Sorted(history: seq<real>) {
    forall i, j :: 0 <= i < j < |history| ==> history[i] <= history[j]
  }

  predicate AtMost(history: seq<real>, hi: real) {
    forall i :: 0 <= i < |history| ==> history[i] <= hi
  }

  /******* Lemmas *******/

  lemma {:induction false} WindowAppend(a: seq<real>, b: seq<real>, lo: real, hi: real)
    ensures Window(a + b, lo, hi) == Window(a, lo, hi) + Window(b, lo, hi)
  {
    if a == [] {
      assert a + b == b;
    } else {
      assert (a + b)[1..] == a[1..] + b;
      WindowAppend(a[1..], b, lo, hi);
    }
  }

  lemma {:induction false} WindowOfAll(history: seq<real>, lo: real, hi: real)
    requires forall i :: 0 <= i < |history| ==> lo <= history[i] <= hi
    ensures Window(history, lo, hi) == history
  {
    if history != [] {
      WindowOfAll(history[1..], lo, hi);
    }
  }

  lemma {:induction false} WindowWithin(history: seq<real>, lo: real, hi: real)
    ensures forall i :: 0 <= i < |Window(history, lo, hi)| ==> lo <= Window(history, lo, hi)[i] <= hi
    ensures Sorted(history) ==> Sorted(Window(history, lo, hi))
  {
    if history != [] {
      var rest := Window(history[1..], lo, hi);
      WindowWithin(history[1..], lo, hi);
      WindowMembers(history[1..], lo, hi);
      assert forall i :: 0 <= i < |rest| ==> rest[i] in history[1..];
    }
  }

  lemma {:induction false} WindowMembers(history: seq<real>, lo: real, hi: real)
    ensures forall x :: x in Window(history, lo, hi) ==> x in history
  {
    if history != [] {
      WindowMembers(history[1..], lo, hi);
    }
  }

  /** Popping from the front of a sorted bucket is filtering by the window. */
  lemma {:induction false} PruneIsWindow(history: seq<real>, lo: real, hi: real)
    requires Sorted(history) && AtMost(history, hi)
    ensures Prune(history, lo) == Window(history, lo, hi)
  {
    if history != [] {
      if history[0] < lo {
        PruneIsWindow(history[1..], lo, hi);
      } else {
        WindowOfAll(history, lo, hi);
      }
    }
  }

  /** Filtering by a window and then by a later one is filtering by the later one. */
  lemma {:induction false} WindowTwice(history: seq<real>, lo: real, hi: real, lo': real, hi': real)
    requires lo <= lo' && hi <= hi' && AtMost(history, hi)
    ensures Window(Window(history, lo, hi), lo', hi') == Window(history, lo', hi')
  {
    if history != [] {
      WindowTwice(history[1..], lo, hi, lo', hi');
      var head := if lo <= history[0] <= hi then [history[0]] else [];
      WindowAppend(head, Window(history[1..], lo, hi), lo', hi');
    }
  }

  lemma {:induction false} WindowMonotone(history: seq<real>, lo: real, hi: real, lo': real, hi': real)
    requires forall i :: 0 <= i < |history| && lo <= history[i] <= hi ==> lo' <= history[i] <= hi'
    ensures |Window(history, lo, hi)| <= |Window(history, lo', hi')|
  {
    if history != [] {
      WindowMonotone(history[1..], lo, hi, lo', hi');
    }
  }

  lemma {:induction false} AcceptedSorted(maxRequests: int, window: real, calls: seq<Call>, key: string, now: real)
    requires NonDecreasing(calls)
    requires forall i :: 0 <= i < |calls| ==> calls[i].now <= now
    ensures Sorted(Accepted(maxRequests, window, calls, key))
    ensures AtMost(Accepted(maxRequests, window, calls, key), now)
  {
    if calls != [] {
      AcceptedSorted(maxRequests, window, calls[..|calls| - 1], key, calls[|calls| - 1].now);
    }
  }

  /** What is left of a history after one window stays enough for every later window. */
  lemma KeptIsEnough(history: seq<real>, lo: real, hi: real, lo': real, hi': real)
    requires Sorted(history) && AtMost(history, hi) && lo <= lo' && hi <= hi'
    ensures var kept := Window(history, lo, hi);
            && Sorted(kept) && AtMost(kept, hi)
            && Prune(kept, lo') == Window(history, lo', hi')
  {
    var kept := Window(history, lo, hi);
    WindowWithin(history, lo, hi);
    WindowTwice(history, lo, hi, lo', hi');
    PruneIsWindow(kept, lo', hi');
  }

  lemma ExtendedIsEnough(history: seq<real>, lo: real, hi: real, lo': real, hi': real)
    requires Sorted(history) && AtMost(history, hi) && lo <= lo' && hi <= hi'
    ensures var kept := Window(history, lo, hi) + [hi];
            && Sorted(kept) && AtMost(kept, hi)
            && Prune(kept, lo') == Window(history + [hi], lo', hi')
  {
    KeptIsEnough(history, lo, hi, lo', hi');
    var kept := Window(history, lo, hi);
    WindowTwice(history, lo, hi, lo', hi');
    PruneIsWindow(kept + [hi], lo', hi');
    WindowAppend(kept, [hi], lo', hi');
    WindowAppend(history, [hi], lo', hi');
  }

  /** One call keeps the bucket in step with the full history, whether or not it is accepted. */
  lemma AdmitKeepsWindow(maxRequests: int, window: real, bucket: seq<real>, history: seq<real>, hi: real, now: real)
    requires Sorted(history) && AtMost(history, hi) && hi <= now
    requires Prune(bucket, hi - window) == Window(history, hi - window, hi)
    ensures var a := Admit(maxRequests, window, bucket, hi);
            && Remember(maxRequests, window, history, hi) == Extend(history, a.allowed, hi)
            && Prune(a.bucket, now - window) == Window(Remember(maxRequests, window, history, hi), now - window, now)
  {
    if |Prune(bucket, hi - window)| >= maxRequests {
      KeptIsEnough(history, hi - window, hi, now - window, now);
    } else {
      ExtendedIsEnough(history, hi - window, hi, now - window, now);
    }
  }

  /** Everything the next call needs from the full history is still in the pruned bucket. */
  lemma {:induction false} BucketKeepsWindow(maxRequests: int, window: real, calls: seq<Call>, key: string, now: real)
    requires NonDecreasing(calls)
    requires forall i :: 0 <= i < |calls| ==> calls[i].now <= now
    ensures Prune(Bucket(RunHits(maxRequests, window, calls), key), now - window)
            == Window(Accepted(maxRequests, window, calls, key), now - window, now)
  {
    if calls != [] {
      var before, call := calls[..|calls| - 1], calls[|calls| - 1];
      assert calls == before + [call];
      CallsBefore(before, call);
      if call.key == key {
        BucketKeepsWindow(maxRequests, window, before, key, call.now);
        AcceptedSorted(maxRequests, window, before, key, call.now);
        AdmitKeepsWindow(maxRequests, window, Bucket(RunHits(maxRequests, window, before), key),
                         Accepted(maxRequests, window, before, key), call.now, now);
      } else {
        BucketKeepsWindow(maxRequests, window, before, key, now);
      }
    }
  }

  lemma CallsBefore(calls: seq<Call>, call: Call)
    requires NonDecreasing(calls + [call])
    ensures NonDecreasing(calls) && forall i :: 0 <= i < |calls| ==> calls[i].now <= call.now
  {
    var all := calls + [call];
    assert all[|calls|] == call && forall i :: 0 <= i < |calls| ==> calls[i] == all[i];
  }

  /**
   A call is refused exactly when the closed window that ends at it already holds maxRequests
   accepted calls of its key, counted over the whole history; and afterwards the bucket is
   exactly the accepted times of that window.
   */
  lemma DecisionIsFullHistoryCount(maxRequests: int, window: real, calls: seq<Call>, call: Call)
    requires NonDecreasing(calls + [call])
    ensures var d := AllowStep(maxRequests, window, RunHits(maxRequests, window, calls), call);
            var history := Accepted(maxRequests, window, calls, call.key);
            && (d.allowed <==> |Window(history, call.now - window, call.now)| < maxRequests)
            && Accepted(maxRequests, window, calls + [call], call.key) == Extend(history, d.allowed, call.now)
            && (window >= 0.0 ==>
                  Bucket(d.hits, call.key)
                  == Window(Accepted(maxRequests, window, calls + [call], call.key), call.now - window, call.now))
  {
    CallsBefore(calls, call);
    BucketKeepsWindow(maxRequests, window, calls, call.key, call.now);
    AcceptedNext(maxRequests, window, calls, call);
    AdmitDecides(maxRequests, window, Bucket(RunHits(maxRequests, window, calls), call.key),
                 Accepted(maxRequests, window, calls, call.key), call.now);
  }

  lemma AcceptedNext(maxRequests: int, window: real, calls: seq<Call>, call: Call)
    ensures Accepted(maxRequests, window, calls + [call], call.key)
         == Remember(maxRequests, window, Accepted(maxRequests, window, calls, call.key), call.now)
  {
    assert (calls + [call])[..|calls|] == calls;
  }

  /** What one call decides from its pruned bucket is what the history decides. */
  lemma AdmitDecides(maxRequests: int, window: real, bucket: seq<real>, history: seq<real>, now: real)
    requires Prune(bucket, now - window) == Window(history, now - window, now)
    ensures var a := Admit(maxRequests, window, bucket, now);
            && (a.allowed <==> |Window(history, now - window, now)| < maxRequests)
            && (window >= 0.0 ==> a.bucket == Window(Extend(history, a.allowed, now), now - window, now))
  {
    WindowAppend(history, [now], now - window, now);
  }

  /** No closed interval of one window length ever holds more than maxRequests accepted calls of a key. */
  lemma {:induction false} CapOverEveryInterval(maxRequests: int, window: real, calls: seq<Call>, key: string, lo: real)
    requires NonDecreasing(calls)
    ensures |Window(Accepted(maxRequests, window, calls, key), lo, lo + window)|
            <= if maxRequests > 0 then maxRequests else 0
  {
    if calls != [] {
      var before, call := calls[..|calls| - 1], calls[|calls| - 1];
      CapOverEveryInterval(maxRequests, window, before, key, lo);
      AcceptedSorted(maxRequests, window, before, key, call.now);
      var history := Accepted(maxRequests, window, before, key);
      WindowAppend(history, [call.now], lo, lo + window);
      if lo <= call.now <= lo + window {
        WindowMonotone(history, lo, lo + window, call.now - window, call.now);
      }
    }
  }
}
