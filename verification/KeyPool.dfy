/** The rotating API key pool and the request loop that draws from it. Times are readings of a monotonic clock. */
module KeyPool {
  import opened Common

  class ApiKeyRotator {
    const keys: seq<string>
    const cooldownSeconds: real
    var index: nat
    var cooldownUntil: map<string, real>

    predicate Valid() {
      keys != []
    }

    constructor (keys: seq<string>, cooldownSeconds: real)
      requires keys != []
      ensures Valid() && this.keys == keys && this.cooldownSeconds == cooldownSeconds && index == 0
              && cooldownUntil == map[]
    {
      this.keys, this.cooldownSeconds := keys, cooldownSeconds;
      index, cooldownUntil := 0, map[];
    }

    function Expiry(key: string): real
      reads this
    {
      if key in cooldownUntil then cooldownUntil[key] else 0.0
    }

    predicate Cooling(key: string, now: real)
      reads this
    {
      now < Expiry(key)
    }

    function KeyAt(i: nat): string
      requires Valid()
    {
      keys[i % |keys|]
    }

    /** The first usable key from the current position on; every key passed over is cooling, and None is
      * the exception for a pool that is cooling altogether. */
    method GetKey(now: real) returns (key: Option<string>)
      requires Valid()
      modifies this`index
      ensures old(index) < index <= old(index) + |keys|
      ensures key.None? <==> forall i :: 0 <= i < |keys| ==> Cooling(keys[i], now)
      ensures key.None? ==> index == old(index) + |keys|
      ensures key.Some? ==> key.value == KeyAt(index - 1) && key.value in keys && !Cooling(key.value, now)
      ensures forall i: nat :: old(index) <= i < index - (if key.Some? then 1 else 0) ==> Cooling(KeyAt(i), now)
    {
      var turn := 0;
      while turn < |keys|
        invariant 0 <= turn <= |keys| && index == old(index) + turn
        invariant forall i: nat :: old(index) <= i < index ==> Cooling(KeyAt(i), now)
      {
        var candidate := keys[index % |keys|];
        index := index + 1;
        if now >= Expiry(candidate) {
          assert exists i :: 0 <= i < |keys| && keys[i] == candidate;
          return Some(candidate);
        }
        turn := turn + 1;
      }
      forall i | 0 <= i < |keys|
        ensures Cooling(keys[i], now)
      {
        var at := FullTurn(old(index), |keys|, i);
        assert KeyAt(at) == keys[i];
      }
      key := None;
    }

    method ReportRateLimited(key: string, now: real)
      modifies this`cooldownUntil
      ensures cooldownUntil == old(cooldownUntil)[key := now + cooldownSeconds]
    {
      cooldownUntil := cooldownUntil[key := now + cooldownSeconds];
    }

    /** What other requests sharing the pool do meanwhile: they draw keys and report further rate limits. */
    method OtherRequests(meanwhile: Interference)
      modifies this
      ensures index == old(index) + meanwhile.draws
      ensures forall k :: Expiry(k) >= old(Expiry(k))
    {
      index := index + meanwhile.draws;
      cooldownUntil := map k | k in cooldownUntil.Keys + meanwhile.expiries.Keys ::
        Later(Expiry(k), meanwhile.expiries, k);
    }
  }

  datatype Interference = Interference(draws: nat, expiries: map<string, real>)

  function Later(expiry: real, expiries: map<string, real>, k: string): real {
    if k in expiries && expiries[k] > expiry then expiries[k] else expiry
  }

  /** A full turn from any position meets every key. */
  lemma FullTurn(start: nat, n: nat, i: nat) returns (at: nat)
    requires i < n
    ensures start <= at < start + n && at % n == i
  {
    var r := start % n;
    at := if r <= i then start + (i - r) else start + (n - r + i);
    var q := start / n;
    assert start == q * n + r;
    if r <= i {
      Remainder(q, n, i);
    } else {
      assert at == (q + 1) * n + i;
      Remainder(q + 1, n, i);
    }
  }

  lemma Remainder(q: nat, n: nat, i: nat)
    requires i < n
    ensures (q * n + i) % n == i
  {
    var x := q * n + i;
    var k := x / n - q;
    assert k * n + x % n == i;
    Multiple(k, n);
  }

  lemma Multiple(k: int, n: nat)
    ensures k >= 1 ==> k * n >= n
    ensures k <= -1 ==> k * n + n <= 0
  {
  }

  // ----- Fairness -----

  /** The positions before and after each successful draw, and which positions cool while it happens. */
  ghost predicate Draws(positions: seq<nat>, cooling: seq<set<nat>>, n: nat) {
    && n > 0 && |positions| == |cooling| + 1
    && forall j :: 0 <= j < |cooling| ==>
         positions[j] < positions[j + 1]
         && forall i: nat :: positions[j] <= i < positions[j + 1] - 1 ==> i % n in cooling[j]
  }

  /** In any `n` successful draws, every pool position that never cools is drawn. */
  lemma EveryIdleKeyIsDrawn(positions: seq<nat>, cooling: seq<set<nat>>, n: nat, p: nat) returns (j: nat)
    requires Draws(positions, cooling, n) && |cooling| >= n && p < n
    requires forall c :: c in cooling ==> p !in c
    ensures j < |cooling| && (positions[j + 1] - 1) % n == p
  {
    PositionsAdvance(positions, cooling, n);
    var at := FullTurn(positions[0], n, p);
    j := 0;
    while positions[j + 1] <= at
      invariant j < |cooling| && positions[j] <= at
      decreases |cooling| - j
    {
      j := j + 1;
    }
    assert cooling[j] in cooling;
  }

  lemma {:induction false} PositionsAdvance(positions: seq<nat>, cooling: seq<set<nat>>, n: nat)
    requires Draws(positions, cooling, n)
    ensures positions[|cooling|] >= positions[0] + |cooling|
  {
    if cooling != [] {
      var last := |cooling| - 1;
      PositionsAdvance(positions[..last + 1], cooling[..last], n);
    }
  }

  // ----- The request loop -----

  datatype Response = RateLimited | Failed(error: string) | Transcript(text: string)

  datatype Error = NoError | RateLimitError | OtherError(message: string)

  /** What one request saw: the keys it sent and when each was reported as rate-limited. */
  datatype Attempt = Attempt(key: string, sentAt: real, reportedAt: real)

  class SupadataClient {
    const rotator: ApiKeyRotator
    var lastError: Error

    constructor (rotator: ApiKeyRotator)
      ensures this.rotator == rotator && lastError == NoError
    {
      this.rotator, lastError := rotator, NoError;
    }

    /** The attempt loop: `response` answers each attempt and `clock` is read before it and after it. A failure
      * other than a rate limit ends the request at once. */
    method GetTranscript(response: nat -> Response, clock: nat -> real, others: nat -> Interference)
      returns (transcript: Option<string>, ghost tried: seq<Attempt>)
      requires rotator.Valid() && forall i: nat, j: nat :: i <= j ==> clock(i) <= clock(j)
      modifies this, rotator
      ensures |tried| <= |rotator.keys| && Sent(tried, rotator.keys)
      // a rate-limited key is not used again before its cooldown ends
      ensures forall i, j :: 0 <= i < j < |tried| && tried[j].sentAt < tried[i].reportedAt + rotator.cooldownSeconds ==>
                tried[i].key != tried[j].key
      // all attempts but the last were rate-limited, and the last decides
      ensures forall i :: 0 <= i < |tried| - 1 ==> response(i) == RateLimited
      ensures transcript.Some? <==>
                tried != []
                && response(|tried| - 1) == Transcript(if transcript.Some? then transcript.value else "")
      ensures transcript.None? ==>
                lastError == if tried != [] && response(|tried| - 1).Failed?
                             then OtherError(response(|tried| - 1).error) else RateLimitError
      // it gives up for rate limits only when the whole pool is cooling, unless a cooldown ran out meanwhile
      ensures transcript.None? && lastError == RateLimitError
              && clock(2 * |tried|) < clock(0) + rotator.cooldownSeconds ==>
                forall k :: k in rotator.keys ==> rotator.Cooling(k, clock(2 * |tried|))
    {
      lastError := NoError;
      transcript, tried := None, [];
      var attempt := 0;
      while attempt < |rotator.keys|
        invariant attempt == |tried| <= |rotator.keys|
        invariant Kept(rotator, tried, clock) && Apart(tried, rotator.cooldownSeconds)
        invariant forall i :: 0 <= i < |tried| ==> response(i) == RateLimited
        invariant attempt > 0 ==> lastError == RateLimitError
      {
        var key := DrawKey(clock(2 * attempt), others(2 * attempt), tried, clock);
        if key.None? {
          lastError := RateLimitError;
          return;
        }
        ghost var sent := Attempt(key.value, clock(2 * attempt), clock(2 * attempt + 1));
        ApartNext(tried, sent, rotator.cooldownSeconds);
        var answer := response(attempt);
        if answer.RateLimited? {
          lastError := RateLimitError;
          Report(key.value, clock(2 * attempt + 1), others(2 * attempt + 1), tried, sent, clock);
        }
        tried := tried + [sent];
        attempt := attempt + 1;
        if answer.Failed? {
          lastError := OtherError(answer.error);
          return;
        }
        if answer.Transcript? {
          transcript := Some(answer.text);
          return;
        }
      }
      lastError := RateLimitError;
      if clock(2 * |tried|) < clock(0) + rotator.cooldownSeconds {
        AllReported(rotator, tried, clock);
      }
    }

    method DrawKey(now: real, meanwhile: Interference, ghost tried: seq<Attempt>, ghost clock: nat -> real)
      returns (key: Option<string>)
      requires rotator.Valid() && Kept(rotator, tried, clock)
      modifies rotator
      ensures Kept(rotator, tried, clock)
      ensures key.None? ==> forall k :: k in rotator.keys ==> rotator.Cooling(k, now)
      ensures key.Some? ==> key.value in rotator.keys
      ensures key.Some? ==>
                forall i :: 0 <= i < |tried| && now < tried[i].reportedAt + rotator.cooldownSeconds ==>
                  tried[i].key != key.value
    {
      rotator.OtherRequests(meanwhile);
      key := rotator.GetKey(now);
    }

    method Report(key: string, now: real, meanwhile: Interference, ghost tried: seq<Attempt>, ghost sent: Attempt,
                  ghost clock: nat -> real)
      requires Kept(rotator, tried, clock) && forall i: nat, j: nat :: i <= j ==> clock(i) <= clock(j)
      requires sent == Attempt(key, clock(2 * |tried|), now) && now == clock(2 * |tried| + 1) && key in rotator.keys
      modifies rotator
      ensures Kept(rotator, tried + [sent], clock)
    {
      rotator.OtherRequests(meanwhile);
      rotator.ReportRateLimited(key, now);
    }
  }

  lemma ApartNext(tried: seq<Attempt>, sent: Attempt, cooldown: real)
    requires Apart(tried, cooldown)
    requires forall i :: 0 <= i < |tried| && sent.sentAt < tried[i].reportedAt + cooldown ==> tried[i].key != sent.key
    ensures Apart(tried + [sent], cooldown)
  {
  }

  /** Once as many attempts as there are keys were rate-limited within one cooldown, every key is cooling. */
  lemma AllReported(rotator: ApiKeyRotator, tried: seq<Attempt>, clock: nat -> real)
    requires Kept(rotator, tried, clock) && Apart(tried, rotator.cooldownSeconds) && |tried| == |rotator.keys|
    requires forall i: nat, j: nat :: i <= j ==> clock(i) <= clock(j)
    requires clock(2 * |tried|) < clock(0) + rotator.cooldownSeconds
    ensures forall k :: k in rotator.keys ==> rotator.Cooling(k, clock(2 * |tried|))
  {
    var sent := seq(|tried|, i requires 0 <= i < |tried| => tried[i].key);
    forall i, j | 0 <= i < j < |sent|
      ensures sent[i] != sent[j]
    {
      assert tried[j].sentAt <= clock(2 * |tried|) && clock(0) <= tried[i].reportedAt;
    }
    forall k | k in rotator.keys
      ensures rotator.Cooling(k, clock(2 * |tried|))
    {
      var i := Pigeonhole(sent, rotator.keys, k);
      assert clock(0) <= tried[i].reportedAt;
    }
  }

  /** As many different members as the list is long are all of its members. */
  lemma Pigeonhole(sent: seq<string>, keys: seq<string>, k: string) returns (i: nat)
    requires |sent| == |keys| && k in keys
    requires forall i :: 0 <= i < |sent| ==> sent[i] in keys
    requires forall i, j :: 0 <= i < j < |sent| ==> sent[i] != sent[j]
    ensures i < |sent| && sent[i] == k
  {
    var a, b := set x | x in sent, set x | x in keys;
    DistinctSize(sent);
    AtMostSize(keys);
    if k !in sent {
      assert a <= b - {k};
      SubsetSize(a, b - {k});
      assert false;
    }
    i :| 0 <= i < |sent| && sent[i] == k;
  }

  lemma {:induction false} DistinctSize(s: seq<string>)
    requires forall i, j :: 0 <= i < j < |s| ==> s[i] != s[j]
    ensures |(set x | x in s)| == |s|
  {
    if s != [] {
      var rest, last := s[..|s| - 1], s[|s| - 1];
      DistinctSize(rest);
      assert s == rest + [last];
      assert (set x | x in s) == (set x | x in rest) + {last};
    }
  }

  lemma {:induction false} AtMostSize(s: seq<string>)
    ensures |(set x | x in s)| <= |s|
  {
    if s != [] {
      var rest, last := s[..|s| - 1], s[|s| - 1];
      AtMostSize(rest);
      assert s == rest + [last];
      assert (set x | x in s) == (set x | x in rest) + {last};
    }
  }

  ghost predicate Sent(tried: seq<Attempt>, keys: seq<string>) {
    forall i :: 0 <= i < |tried| ==> tried[i].key in keys
  }

  ghost predicate Apart(tried: seq<Attempt>, cooldown: real) {
    forall i, j ::
      0 <= i < j < |tried| && tried[j].sentAt < tried[i].reportedAt + cooldown ==> tried[i].key != tried[j].key
  }

  /** Every rate-limited attempt is still on record in the pool. */
  ghost predicate Kept(rotator: ApiKeyRotator, tried: seq<Attempt>, clock: nat -> real)
    reads rotator
  {
    && Sent(tried, rotator.keys)
    && forall i :: 0 <= i < |tried| ==>
         && tried[i].sentAt == clock(2 * i) && tried[i].reportedAt == clock(2 * i + 1)
         && rotator.Expiry(tried[i].key) >= tried[i].reportedAt + rotator.cooldownSeconds
  }
}
