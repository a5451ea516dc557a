/** The nonce cache over whole runs: it refines an unbounded log of accepts, and
    bounds how often one nonce, and one signed request, can be accepted. */
module Replay {
  import opened Options
  import opened Json
  import opened Authentication

  datatype Call = Call(request: Request, now: int)

  datatype Accept = Accept(key: ReplayKey, at: int)

  /** The clock never runs backwards. */
  ghost predicate ClockRuns(calls: seq<Call>) {
    forall i, j :: 0 <= i <= j < |calls| ==> calls[i].now <= calls[j].now
  }

  /** The verdicts of a run of the real, pruning authenticator. */
  function Verdicts(config: AuthConfig, crypto: Crypto, seen: NonceCache, calls: seq<Call>): (r: seq<Verdict>)
    ensures |r| == |calls|
    decreases |calls|
  {
    if calls == [] then []
    else
      var c := calls[0];
      [Decide(config, crypto, seen, c.request, c.now)]
      + Verdicts(config, crypto, CacheAfter(config, crypto, seen, c.request, c.now), calls[1..])
  }

  // ------------------------------------------------------- the unbounded log

  ghost predicate LoggedSince(log: seq<Accept>, key: ReplayKey, cutoff: int) {
    exists i :: 0 <= i < |log| && log[i].key == key && log[i].at >= cutoff
  }

  ghost function LogDecide(config: AuthConfig, crypto: Crypto, log: seq<Accept>, request: Request, now: int): Verdict {
    match Precheck(config, crypto, request, now)
    case Done(v) => v
    case AskCache(key, ifFresh) =>
      if LoggedSince(log, key, now - config.skew) then Refused(Replayed) else ifFresh
  }

  /** Nothing is ever forgotten. */
  ghost function LogAfter(config: AuthConfig, crypto: Crypto, log: seq<Accept>, request: Request, now: int): seq<Accept>
  {
    match Precheck(config, crypto, request, now)
    case Done(_) => log
    case AskCache(key, _) =>
      if LogDecide(config, crypto, log, request, now).Accepted? then log + [Accept(key, now)] else log
  }

  ghost function LogVerdicts(config: AuthConfig, crypto: Crypto, log: seq<Accept>, calls: seq<Call>): (r: seq<Verdict>)
    ensures |r| == |calls|
    decreases |calls|
  {
    if calls == [] then []
    else
      var c := calls[0];
      [LogDecide(config, crypto, log, c.request, c.now)]
      + LogVerdicts(config, crypto, LogAfter(config, crypto, log, c.request, c.now), calls[1..])
  }

  /** The cache holds what the log says about the last `skew` seconds. */
  ghost predicate Agrees(skew: int, seen: NonceCache, log: seq<Accept>, clock: int) {
    && (forall k :: k in seen ==> LoggedSince(log, k, seen[k]))
    && (forall i :: 0 <= i < |log| ==> log[i].at <= clock)
    && (forall i :: 0 <= i < |log| ==>
          log[i].at < clock - skew || (log[i].key in seen && seen[log[i].key] >= log[i].at))
  }

  lemma StepRefines(config: AuthConfig, crypto: Crypto, seen: NonceCache, log: seq<Accept>, clock: int,
                    request: Request, now: int)
    requires Agrees(config.skew, seen, log, clock) && clock <= now
    ensures Decide(config, crypto, seen, request, now) == LogDecide(config, crypto, log, request, now)
    ensures Agrees(config.skew, CacheAfter(config, crypto, seen, request, now),
                   LogAfter(config, crypto, log, request, now), now)
  {
    match Precheck(config, crypto, request, now)
    case Done(_) =>
    case AskCache(key, ifFresh) =>
      var pruned := Prune(seen, now - config.skew);
      assert key in pruned <==> LoggedSince(log, key, now - config.skew);
      if key !in pruned && ifFresh.Accepted? {
        var log' := log + [Accept(key, now)];
        assert log'[|log|] == Accept(key, now);
        forall k | k in pruned ensures LoggedSince(log', k, pruned[k]) {
          var i :| 0 <= i < |log| && log[i].key == k && log[i].at >= seen[k];
          assert log'[i] == log[i];
        }
      }
  }

  /** On every run the pruned cache decides as the unbounded log does. */
  lemma {:induction false} CacheRefinesLog(config: AuthConfig, crypto: Crypto, seen: NonceCache, log: seq<Accept>,
                                           clock: int, calls: seq<Call>)
    requires Agrees(config.skew, seen, log, clock)
    requires ClockRuns(calls) && (calls != [] ==> clock <= calls[0].now)
    ensures Verdicts(config, crypto, seen, calls) == LogVerdicts(config, crypto, log, calls)
    decreases |calls|
  {
    if calls != [] {
      var c := calls[0];
      StepRefines(config, crypto, seen, log, clock, c.request, c.now);
      assert ClockRuns(calls[1..]);
      CacheRefinesLog(config, crypto, CacheAfter(config, crypto, seen, c.request, c.now),
                      LogAfter(config, crypto, log, c.request, c.now), c.now, calls[1..]);
    }
  }

  /** A new authenticator starts in agreement with the empty log. */
  lemma FreshRunRefinesLog(config: AuthConfig, crypto: Crypto, calls: seq<Call>)
    requires ClockRuns(calls)
    ensures Verdicts(config, crypto, map[], calls) == LogVerdicts(config, crypto, [], calls)
  {
    if calls != [] {
      CacheRefinesLog(config, crypto, map[], [], calls[0].now, calls);
    }
  }

  // ----------------------------------------------- rejects leave no trace

  function Select<T>(s: seq<T>, keep: seq<bool>): seq<T>
    requires |s| == |keep|
  {
    if s == [] then [] else (if keep[0] then [s[0]] else []) + Select(s[1..], keep[1..])
  }

  lemma {:induction false} LogDropRejected(config: AuthConfig, crypto: Crypto, log: seq<Accept>, calls: seq<Call>,
                                           keep: seq<bool>)
    requires |keep| == |calls|
    requires forall i :: 0 <= i < |calls| && !keep[i] ==> !LogVerdicts(config, crypto, log, calls)[i].Accepted?
    ensures LogVerdicts(config, crypto, log, Select(calls, keep)) ==
            Select(LogVerdicts(config, crypto, log, calls), keep)
    decreases |calls|
  {
    if calls != [] {
      var c := calls[0];
      var log' := LogAfter(config, crypto, log, c.request, c.now);
      var all := LogVerdicts(config, crypto, log, calls);
      assert all[1..] == LogVerdicts(config, crypto, log', calls[1..]);
      forall i | 0 <= i < |calls[1..]| && !keep[1..][i]
        ensures !LogVerdicts(config, crypto, log', calls[1..])[i].Accepted?
      {
        assert all[i + 1] == all[1..][i];
      }
      LogDropRejected(config, crypto, log', calls[1..], keep[1..]);
      if keep[0] {
        assert Select(calls, keep)[1..] == Select(calls[1..], keep[1..]);
      } else {
        assert all[0] == LogDecide(config, crypto, log, c.request, c.now);
        assert log' == log;
        assert Select(calls, keep) == Select(calls[1..], keep[1..]);
      }
    }
  }

  lemma {:induction false} SelectSorted(calls: seq<Call>, keep: seq<bool>, low: int)
    requires |keep| == |calls| && ClockRuns(calls)
    requires calls != [] ==> low <= calls[0].now
    ensures ClockRuns(Select(calls, keep))
    ensures forall i :: 0 <= i < |Select(calls, keep)| ==> low <= Select(calls, keep)[i].now
    decreases |calls|
  {
    if calls != [] {
      SelectSorted(calls[1..], keep[1..], calls[0].now);
    }
  }

  /** Taking any of the calls that were not accepted out of a run changes no
      other decision. */
  lemma DropRejected(config: AuthConfig, crypto: Crypto, calls: seq<Call>, keep: seq<bool>)
    requires ClockRuns(calls) && |keep| == |calls|
    requires forall i :: 0 <= i < |calls| && !keep[i] ==> !Verdicts(config, crypto, map[], calls)[i].Accepted?
    ensures Verdicts(config, crypto, map[], Select(calls, keep)) ==
            Select(Verdicts(config, crypto, map[], calls), keep)
  {
    FreshRunRefinesLog(config, crypto, calls);
    LogDropRejected(config, crypto, [], calls, keep);
    SelectSorted(calls, keep, if calls == [] then 0 else calls[0].now);
    FreshRunRefinesLog(config, crypto, Select(calls, keep));
  }

  // ------------------------------------------------------------ replay bound

  function KeyOf(r: Request): ReplayKey {
    (if r.headers.keyId.Some? then r.headers.keyId.value else [],
     if r.headers.nonce.Some? then r.headers.nonce.value else [])
  }

  /** The request's own timestamp, 0 when there is none. */
  function TimeOf(crypto: Crypto, r: Request): int {
    if r.headers.timestamp.Some? then
      var t := ParseInt(crypto, r.headers.timestamp.value);
      if t.Some? then t.value else 0
    else 0
  }

  lemma AcceptedMeans(config: AuthConfig, crypto: Crypto, seen: NonceCache, r: Request, now: int)
    requires Decide(config, crypto, seen, r, now).Accepted?
    ensures Precheck(config, crypto, r, now).AskCache? && Precheck(config, crypto, r, now).key == KeyOf(r)
    ensures Abs(now - TimeOf(crypto, r)) <= config.skew
    ensures CacheAfter(config, crypto, seen, r, now) == Prune(seen, now - config.skew)[KeyOf(r) := now]
  {
  }

  /** Any accept that finds `key` in the log since before `low` is later than that. */
  lemma {:induction false} LaterAccept(config: AuthConfig, crypto: Crypto, log: seq<Accept>, calls: seq<Call>, j: nat,
                                       key: ReplayKey, at: int)
    requires j < |calls| && KeyOf(calls[j].request) == key
    requires LoggedSince(log, key, at)
    requires LogVerdicts(config, crypto, log, calls)[j].Accepted?
    ensures calls[j].now - at > config.skew
    decreases j
  {
    var c := calls[0];
    if j > 0 {
      var log' := LogAfter(config, crypto, log, c.request, c.now);
      var i :| 0 <= i < |log| && log[i].key == key && log[i].at >= at;
      assert log'[i] == log[i];
      LaterAccept(config, crypto, log', calls[1..], j - 1, key, at);
    } else {
      assert !LoggedSince(log, key, c.now - config.skew);
    }
  }

  lemma {:induction false} LogGap(config: AuthConfig, crypto: Crypto, log: seq<Accept>, calls: seq<Call>,
                                  i: nat, j: nat)
    requires i < j < |calls|
    requires KeyOf(calls[i].request) == KeyOf(calls[j].request)
    requires LogVerdicts(config, crypto, log, calls)[i].Accepted?
    requires LogVerdicts(config, crypto, log, calls)[j].Accepted?
    ensures calls[j].now - calls[i].now > config.skew
    decreases i
  {
    var c := calls[0];
    var log' := LogAfter(config, crypto, log, c.request, c.now);
    if i > 0 {
      LogGap(config, crypto, log', calls[1..], i - 1, j - 1);
    } else {
      assert log'[|log|] == Accept(KeyOf(c.request), c.now);
      LaterAccept(config, crypto, log', calls[1..], j - 1, KeyOf(c.request), c.now);
    }
  }

  /** In every run two accepts of the same key id and nonce are more than the
      skew apart. */
  lemma ReplayGap(config: AuthConfig, crypto: Crypto, calls: seq<Call>, i: nat, j: nat)
    requires ClockRuns(calls) && i < j < |calls|
    requires KeyOf(calls[i].request) == KeyOf(calls[j].request)
    requires Verdicts(config, crypto, map[], calls)[i].Accepted?
    requires Verdicts(config, crypto, map[], calls)[j].Accepted?
    ensures calls[j].now - calls[i].now > config.skew
  {
    FreshRunRefinesLog(config, crypto, calls);
    LogGap(config, crypto, [], calls, i, j);
  }

  lemma {:induction false} VerdictAt(config: AuthConfig, crypto: Crypto, seen: NonceCache, calls: seq<Call>, i: nat)
    requires i < |calls| && Verdicts(config, crypto, seen, calls)[i].Accepted?
    ensures Abs(calls[i].now - TimeOf(crypto, calls[i].request)) <= config.skew
    decreases i
  {
    var c := calls[0];
    if i == 0 {
      AcceptedMeans(config, crypto, seen, c.request, c.now);
    } else {
      VerdictAt(config, crypto, CacheAfter(config, crypto, seen, c.request, c.now), calls[1..], i - 1);
    }
  }

  /** A nonce under one timestamp is accepted at most twice in any run, and only
      once when its first accept is not before that timestamp. */
  lemma AtMostTwice(config: AuthConfig, crypto: Crypto, calls: seq<Call>, i: nat, j: nat)
    requires ClockRuns(calls) && i < j < |calls|
    requires KeyOf(calls[i].request) == KeyOf(calls[j].request)
    requires TimeOf(crypto, calls[i].request) == TimeOf(crypto, calls[j].request)
    requires Verdicts(config, crypto, map[], calls)[i].Accepted?
    requires Verdicts(config, crypto, map[], calls)[j].Accepted?
    ensures calls[i].now < TimeOf(crypto, calls[i].request) < calls[j].now
    ensures forall k :: j < k < |calls|
                        && KeyOf(calls[k].request) == KeyOf(calls[i].request)
                        && TimeOf(crypto, calls[k].request) == TimeOf(crypto, calls[i].request)
                        ==> !Verdicts(config, crypto, map[], calls)[k].Accepted?
  {
    ReplayGap(config, crypto, calls, i, j);
    VerdictAt(config, crypto, map[], calls, i);
    VerdictAt(config, crypto, map[], calls, j);
    forall k | j < k < |calls|
               && KeyOf(calls[k].request) == KeyOf(calls[i].request)
               && TimeOf(crypto, calls[k].request) == TimeOf(crypto, calls[i].request)
      ensures !Verdicts(config, crypto, map[], calls)[k].Accepted?
    {
      if Verdicts(config, crypto, map[], calls)[k].Accepted? {
        ReplayGap(config, crypto, calls, j, k);
        VerdictAt(config, crypto, map[], calls, k);
        assert false;
      }
    }
  }

  predicate AcceptedAgain(config: AuthConfig, crypto: Crypto, seen: NonceCache, r: Request, first: int, again: int) {
    Decide(config, crypto, CacheAfter(config, crypto, seen, r, first), r, again).Accepted?
  }

  /** Exactly when a request can be used twice: the same request, accepted at
      `first` from any cache, is accepted again at some later time if and only
      if its timestamp was ahead of the server's clock. */
  lemma SingleUseExactly(config: AuthConfig, crypto: Crypto, seen: NonceCache, r: Request, first: int)
    requires Decide(config, crypto, seen, r, first).Accepted?
    ensures (exists again :: again >= first && AcceptedAgain(config, crypto, seen, r, first, again))
            <==> first < TimeOf(crypto, r)
  {
    AcceptedMeans(config, crypto, seen, r, first);
    var t := TimeOf(crypto, r);
    if first < t {
      assert AcceptedAgain(config, crypto, seen, r, first, t + config.skew);
    }
    forall again | again >= first && AcceptedAgain(config, crypto, seen, r, first, again)
      ensures first < t
    {
      AcceptedMeans(config, crypto, CacheAfter(config, crypto, seen, r, first), r, again);
    }
  }

  // -------------------------------------------------------- sign and verify

  lemma {:induction false} DecimalRoundTrip(n: nat)
    ensures IsPlainDecimal(Decimal(n)) && DecimalValue(Decimal(n)) == n
    decreases n
  {
    if n >= 10 {
      DecimalRoundTrip(n / 10);
      var s := Decimal(n);
      assert s[..|s| - 1] == Decimal(n / 10) && s[|s| - 1] == 48 + n % 10;
    } else {
      var s := Decimal(n);
      assert s[..|s| - 1] == [];
    }
  }

  predicate NoNewline(s: Str) { 10 !in s }

  lemma {:induction false} SplitAtFirstNewline(a1: Str, b1: Str, a2: Str, b2: Str)
    requires NoNewline(a1) && NoNewline(a2)
    requires a1 + (NEWLINE + b1) == a2 + (NEWLINE + b2)
    ensures a1 == a2 && b1 == b2
    decreases |a1|
  {
    var s1, s2 := a1 + (NEWLINE + b1), a2 + (NEWLINE + b2);
    assert a1 != [] ==> s1[0] == a1[0];
    assert a2 != [] ==> s2[0] == a2[0];
    assert (a1 == [] ==> s1[0] == 10) && (a2 == [] ==> s2[0] == 10);
    if a1 == [] {
      assert s1[1..] == b1 && s2[1..] == b2;
    } else {
      assert s1[1..] == a1[1..] + (NEWLINE + b1) && s2[1..] == a2[1..] + (NEWLINE + b2);
      SplitAtFirstNewline(a1[1..], b1, a2[1..], b2);
    }
  }

  lemma {:induction false} SplitAtLastNewline(a1: Str, b1: Str, a2: Str, b2: Str)
    requires NoNewline(b1) && NoNewline(b2)
    requires a1 + NEWLINE + b1 == a2 + NEWLINE + b2
    ensures a1 == a2 && b1 == b2
    decreases |b1|
  {
    var s1, s2 := a1 + NEWLINE + b1, a2 + NEWLINE + b2;
    var n := |s1| - 1;
    assert b1 != [] ==> s1[n] == b1[|b1| - 1];
    assert b2 != [] ==> s2[n] == b2[|b2| - 1];
    assert (b1 == [] ==> s1[n] == 10) && (b2 == [] ==> s2[n] == 10);
    if b1 == [] {
      assert s1[..n] == a1 && s2[..n] == a2;
    } else {
      var c1, c2 := b1[..|b1| - 1], b2[..|b2| - 1];
      assert s1[..n] == a1 + NEWLINE + c1 && s2[..n] == a2 + NEWLINE + c2;
      SplitAtLastNewline(a1, c1, a2, c2);
      assert b1 == c1 + [s1[n]] && b2 == c2 + [s2[n]];
    }
  }

  /** What is signed determines timestamp, nonce and digest; only timestamp and
      digest need be free of newlines. */
  lemma SigningInputInjective(t1: Str, n1: Str, d1: Str, t2: Str, n2: Str, d2: Str)
    requires NoNewline(t1) && NoNewline(t2) && NoNewline(d1) && NoNewline(d2)
    requires SigningInput(t1, n1, d1) == SigningInput(t2, n2, d2)
    ensures t1 == t2 && n1 == n2 && d1 == d2
  {
    assert SigningInput(t1, n1, d1) == t1 + (NEWLINE + (n1 + NEWLINE + d1));
    assert SigningInput(t2, n2, d2) == t2 + (NEWLINE + (n2 + NEWLINE + d2));
    SplitAtFirstNewline(t1, n1 + NEWLINE + d1, t2, n2 + NEWLINE + d2);
    SplitAtLastNewline(n1, d1, n2, d2);
  }

  /** hexdigest() yields non-empty ASCII text. */
  ghost predicate HexDigests(crypto: Crypto) {
    forall secret, text :: crypto.hmac(secret, text) != [] && IsAscii(crypto.hmac(secret, text))
  }

  /** Headers signed with the secret the server holds for that key are accepted,
      as the peer bound to the key, exactly when the clocks differ by at most the
      skew and the nonce has not been accepted within the skew. */
  lemma SignedIsAccepted(config: AuthConfig, crypto: Crypto, seen: NonceCache, body: Bytes,
                         keyId: Str, secret: Str, url: Str, clock: nat, nonce: Str, now: int)
    requires HexDigests(crypto) && Encodable(secret) && Encodable(nonce) && nonce != []
    requires keyId in config.peers && config.peers[keyId] == PeerDict(Some(secret), Some(url))
    requires SignedHeaders(crypto, body, keyId, secret, clock, nonce).Some?
    ensures var headers := SignedHeaders(crypto, body, keyId, secret, clock, nonce).value;
            Decide(config, crypto, seen, Request(headers, body), now) == Accepted(Peer(keyId, url)) <==>
              Abs(now - clock) <= config.skew && (keyId, nonce) !in Prune(seen, now - config.skew)
  {
    DecimalRoundTrip(clock);
    var headers := SignedHeaders(crypto, body, keyId, secret, clock, nonce).value;
    assert Truthy(headers.timestamp) && Truthy(headers.signature);
    assert ParseInt(crypto, headers.timestamp.value) == Some(clock as int);
    assert Encodable(headers.timestamp.value);
  }
}
