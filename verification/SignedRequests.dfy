/** How often one signed request is accepted by a receiver that may restart: a
    restart forgets every nonce. */
module SignedRequests {
  import opened Json
  import opened JsonRoundTrip
  import opened Authentication
  import opened Protocol
  import opened Replay

  /** The request of this step, taken in state `s`, is accepted under the key. */
  predicate AcceptsAt(cfg: Config, s: State, e: Event, key: ReplayKey) {
    e.Receive? && KeyOf(e.request) == key && Decide(cfg.auth, cfg.crypto, s.seen, e.request, e.clock).Accepted?
  }

  /** The clock never runs backwards, restarts included. */
  ghost predicate ClockRunsOn(evs: seq<Event>) {
    forall i, j :: 0 <= i <= j < |evs| && evs[i].Receive? && evs[j].Receive? ==> evs[i].clock <= evs[j].clock
  }

  /** A request between `i` and `n` came later than the skew allows after `at`. */
  ghost predicate TimePassed(evs: seq<Event>, i: nat, n: nat, at: int, skew: int)
    requires n <= |evs|
  {
    exists k :: i < k < n && evs[k].Receive? && evs[k].clock - at > skew
  }

  // ------------------------------------------ what the cache knows in a session

  /** The cache remembers an accept at `at`, or it is too old to matter. */
  ghost predicate Remembers(cfg: Config, tr: seq<State>, evs: seq<Event>, i: nat, n: nat, key: ReplayKey, at: int)
    requires n <= |evs| < |tr|
  {
    (key in tr[n].seen && tr[n].seen[key] >= at) || TimePassed(evs, i, n, at, cfg.auth.skew)
  }

  lemma CacheStep(auth: AuthConfig, crypto: Crypto, seen: NonceCache, r: Request, now: int, key: ReplayKey, at: int)
    requires key in seen && seen[key] >= at && now >= at
    ensures var seen' := CacheAfter(auth, crypto, seen, r, now);
            (key in seen' && seen'[key] >= at) || now - at > auth.skew
  {
  }

  lemma SeenAfter(cfg: Config, s: State, e: Event)
    requires Enabled(s, e)
    ensures Step(cfg, s, e).seen ==
            match e
            case Receive(request, clock, _, _) => CacheAfter(cfg.auth, cfg.crypto, s.seen, request, clock)
            case Restart => map[]
            case _ => s.seen
  {
  }

  lemma RemembersFirst(cfg: Config, tr: seq<State>, evs: seq<Event>, i: nat, key: ReplayKey)
    requires i < |evs| < |tr| && Enabled(tr[i], evs[i]) && tr[i + 1] == Step(cfg, tr[i], evs[i])
    requires AcceptsAt(cfg, tr[i], evs[i], key)
    ensures Remembers(cfg, tr, evs, i, i + 1, key, evs[i].clock)
  {
    SeenAfter(cfg, tr[i], evs[i]);
    AcceptedMeans(cfg.auth, cfg.crypto, tr[i].seen, evs[i].request, evs[i].clock);
  }

  lemma RemembersNext(cfg: Config, tr: seq<State>, evs: seq<Event>, i: nat, n: nat, key: ReplayKey, at: int)
    requires i < n < |evs| < |tr| && Enabled(tr[n], evs[n]) && tr[n + 1] == Step(cfg, tr[n], evs[n])
    requires !evs[n].Restart? && (evs[n].Receive? ==> evs[n].clock >= at)
    requires Remembers(cfg, tr, evs, i, n, key, at)
    ensures Remembers(cfg, tr, evs, i, n + 1, key, at)
  {
    SeenAfter(cfg, tr[n], evs[n]);
    if TimePassed(evs, i, n, at, cfg.auth.skew) {
      var k :| i < k < n && evs[k].Receive? && evs[k].clock - at > cfg.auth.skew;
      assert TimePassed(evs, i, n + 1, at, cfg.auth.skew);
    } else if evs[n].Receive? {
      CacheStep(cfg.auth, cfg.crypto, tr[n].seen, evs[n].request, evs[n].clock, key, at);
    }
  }

  lemma RemembersNextOn(cfg: Config, tr: seq<State>, evs: seq<Event>, i: nat, n: nat, key: ReplayKey)
    requires Run(cfg, tr, evs) && ClockRunsOn(evs) && i < n < |evs| && !evs[n].Restart? && evs[i].Receive?
    requires Remembers(cfg, tr, evs, i, n, key, evs[i].clock)
    ensures Remembers(cfg, tr, evs, i, n + 1, key, evs[i].clock)
  {
    assert Enabled(tr[n], evs[n]);
    RemembersNext(cfg, tr, evs, i, n, key, evs[i].clock);
  }

  lemma RemembersFirstOn(cfg: Config, tr: seq<State>, evs: seq<Event>, i: nat, key: ReplayKey)
    requires Run(cfg, tr, evs) && i < |evs| && AcceptsAt(cfg, tr[i], evs[i], key)
    ensures Remembers(cfg, tr, evs, i, i + 1, key, evs[i].clock)
  {
    assert Enabled(tr[i], evs[i]);
    RemembersFirst(cfg, tr, evs, i, key);
  }

  lemma {:induction false} RemembersOn(cfg: Config, tr: seq<State>, evs: seq<Event>, i: nat, n: nat, key: ReplayKey)
    requires Run(cfg, tr, evs) && ClockRunsOn(evs) && i < n < |tr| && NoRestart(evs, i, n)
    requires AcceptsAt(cfg, tr[i], evs[i], key)
    ensures Remembers(cfg, tr, evs, i, n, key, evs[i].clock)
    decreases n
  {
    if n == i + 1 {
      RemembersFirstOn(cfg, tr, evs, i, key);
    } else {
      RemembersOn(cfg, tr, evs, i, n - 1, key);
      RemembersNextOn(cfg, tr, evs, i, n - 1, key);
    }
  }

  /** The cache holds nothing but accepts of its own session. */
  ghost predicate AcceptedSince(cfg: Config, tr: seq<State>, evs: seq<Event>, n: nat, key: ReplayKey, since: int)
    requires n <= |evs| < |tr|
  {
    exists i :: 0 <= i < n && AcceptsAt(cfg, tr[i], evs[i], key) && evs[i].clock >= since && NoRestart(evs, i, n)
  }

  ghost predicate Recorded(cfg: Config, tr: seq<State>, evs: seq<Event>, n: nat, key: ReplayKey)
    requires n <= |evs| < |tr|
  {
    key in tr[n].seen ==> AcceptedSince(cfg, tr, evs, n, key, tr[n].seen[key])
  }

  lemma AcceptedSinceNext(cfg: Config, tr: seq<State>, evs: seq<Event>, n: nat, key: ReplayKey, since: int)
    requires n < |evs| < |tr| && !evs[n].Restart?
    requires AcceptedSince(cfg, tr, evs, n, key, since) || (AcceptsAt(cfg, tr[n], evs[n], key) && evs[n].clock >= since)
    ensures AcceptedSince(cfg, tr, evs, n + 1, key, since)
  {
    if AcceptedSince(cfg, tr, evs, n, key, since) {
      var i :| 0 <= i < n && AcceptsAt(cfg, tr[i], evs[i], key) && evs[i].clock >= since && NoRestart(evs, i, n);
      assert NoRestart(evs, i, n + 1);
    } else {
      assert NoRestart(evs, n, n + 1);
    }
  }

  lemma CacheOrigin(auth: AuthConfig, crypto: Crypto, seen: NonceCache, r: Request, now: int, key: ReplayKey)
    requires key in CacheAfter(auth, crypto, seen, r, now)
    ensures || (key in seen && CacheAfter(auth, crypto, seen, r, now)[key] == seen[key])
            || (Decide(auth, crypto, seen, r, now).Accepted? && KeyOf(r) == key
                && CacheAfter(auth, crypto, seen, r, now)[key] == now)
  {
  }

  lemma RecordedNext(cfg: Config, tr: seq<State>, evs: seq<Event>, n: nat, key: ReplayKey)
    requires n < |evs| < |tr| && Enabled(tr[n], evs[n]) && tr[n + 1] == Step(cfg, tr[n], evs[n])
    requires Recorded(cfg, tr, evs, n, key)
    ensures Recorded(cfg, tr, evs, n + 1, key)
  {
    SeenAfter(cfg, tr[n], evs[n]);
    if key in tr[n + 1].seen {
      if evs[n].Receive? {
        CacheOrigin(cfg.auth, cfg.crypto, tr[n].seen, evs[n].request, evs[n].clock, key);
      }
      AcceptedSinceNext(cfg, tr, evs, n, key, tr[n + 1].seen[key]);
    }
  }

  lemma {:induction false} RecordedOn(cfg: Config, tr: seq<State>, evs: seq<Event>, n: nat, key: ReplayKey)
    requires Run(cfg, tr, evs) && n < |tr|
    ensures Recorded(cfg, tr, evs, n, key)
    decreases n
  {
    if n > 0 {
      RecordedOn(cfg, tr, evs, n - 1, key);
      assert Enabled(tr[n - 1], evs[n - 1]);
      RecordedNext(cfg, tr, evs, n - 1, key);
    }
  }

  /** In every run of the receiver the pruned cache answers as a log of all accepts
      since the last restart would: a nonce counts as seen exactly when its key was
      accepted with it in this session within the skew. */
  lemma CacheIsSessionLog(cfg: Config, tr: seq<State>, evs: seq<Event>, n: nat, key: ReplayKey)
    requires Run(cfg, tr, evs) && ClockRunsOn(evs) && n < |evs| && evs[n].Receive?
    ensures var since := evs[n].clock - cfg.auth.skew;
            key in Prune(tr[n].seen, since) <==> AcceptedSince(cfg, tr, evs, n, key, since)
  {
    var since := evs[n].clock - cfg.auth.skew;
    RecordedOn(cfg, tr, evs, n, key);
    if key in Prune(tr[n].seen, since) {
      var i :| 0 <= i < n && AcceptsAt(cfg, tr[i], evs[i], key) && evs[i].clock >= tr[n].seen[key]
               && NoRestart(evs, i, n);
      assert evs[i].clock >= since;
    }
    if AcceptedSince(cfg, tr, evs, n, key, since) {
      var i :| 0 <= i < n && AcceptsAt(cfg, tr[i], evs[i], key) && evs[i].clock >= since && NoRestart(evs, i, n);
      RemembersOn(cfg, tr, evs, i, n, key);
    }
  }

  // ------------------------------------------------------ gaps and second accepts

  /** Two accepts of one key id and nonce are more than the skew apart, or the
      receiver has restarted in between. */
  lemma AcceptsApart(cfg: Config, tr: seq<State>, evs: seq<Event>, i: nat, j: nat, key: ReplayKey)
    requires Run(cfg, tr, evs) && ClockRunsOn(evs) && i < j < |evs|
    requires AcceptsAt(cfg, tr[i], evs[i], key) && AcceptsAt(cfg, tr[j], evs[j], key)
    ensures evs[j].clock - evs[i].clock > cfg.auth.skew || !NoRestart(evs, i, j)
  {
    if NoRestart(evs, i, j) && evs[j].clock - evs[i].clock <= cfg.auth.skew {
      assert AcceptedSince(cfg, tr, evs, j, key, evs[j].clock - cfg.auth.skew);
      CacheIsSessionLog(cfg, tr, evs, j, key);
      AcceptedFresh(cfg.auth, cfg.crypto, tr[j].seen, evs[j].request, evs[j].clock);
    }
  }

  lemma AcceptedFresh(auth: AuthConfig, crypto: Crypto, seen: NonceCache, r: Request, now: int)
    requires Decide(auth, crypto, seen, r, now).Accepted?
    ensures KeyOf(r) !in Prune(seen, now - auth.skew) && Abs(now - TimeOf(crypto, r)) <= auth.skew
  {
  }

  /** A request that was accepted once is accepted at another time, from another
      cache, exactly when it is in the clock window and its nonce not in the cache. */
  lemma AcceptedOnceMore(auth: AuthConfig, crypto: Crypto, seen: NonceCache, first: int, seen': NonceCache, r: Request,
                         now: int)
    requires Decide(auth, crypto, seen, r, first).Accepted?
    ensures Decide(auth, crypto, seen', r, now).Accepted? <==>
            Abs(now - TimeOf(crypto, r)) <= auth.skew && KeyOf(r) !in Prune(seen', now - auth.skew)
  {
  }

  /** No accept of the key between the two steps. */
  ghost predicate NoneBetween(cfg: Config, tr: seq<State>, evs: seq<Event>, i: nat, j: nat, key: ReplayKey)
    requires j <= |evs| < |tr|
  {
    forall k :: i < k < j ==> !AcceptsAt(cfg, tr[k], evs[k], key)
  }

  /** The exact condition for a second accept: a request accepted at step `i` and
      sent again at step `j`, its nonce unused in between, is accepted again if and
      only if its timestamp is still within the skew, and either more than the skew
      has passed since the first accept or the receiver has restarted. */
  lemma SecondAcceptExactly(cfg: Config, tr: seq<State>, evs: seq<Event>, i: nat, j: nat)
    requires Run(cfg, tr, evs) && ClockRunsOn(evs) && i < j < |evs|
    requires evs[i].Receive? && evs[j].Receive? && evs[i].request == evs[j].request
    requires AcceptsAt(cfg, tr[i], evs[i], KeyOf(evs[i].request))
    requires NoneBetween(cfg, tr, evs, i, j, KeyOf(evs[i].request))
    ensures AcceptsAt(cfg, tr[j], evs[j], KeyOf(evs[i].request)) <==>
            && evs[j].clock <= TimeOf(cfg.crypto, evs[i].request) + cfg.auth.skew
            && (evs[j].clock - evs[i].clock > cfg.auth.skew || !NoRestart(evs, i, j))
  {
    var r, key, since := evs[i].request, KeyOf(evs[i].request), evs[j].clock - cfg.auth.skew;
    AcceptedOnceMore(cfg.auth, cfg.crypto, tr[i].seen, evs[i].clock, tr[j].seen, r, evs[j].clock);
    AcceptedFresh(cfg.auth, cfg.crypto, tr[i].seen, r, evs[i].clock);
    CacheIsSessionLog(cfg, tr, evs, j, key);
    AcceptCounts(cfg, tr, evs, i, j, key, since);
    if AcceptedSince(cfg, tr, evs, j, key, since) {
      OnlyEarlier(cfg, tr, evs, i, j, key, since);
    }
  }

  lemma AcceptCounts(cfg: Config, tr: seq<State>, evs: seq<Event>, i: nat, j: nat, key: ReplayKey, since: int)
    requires i < j <= |evs| < |tr| && AcceptsAt(cfg, tr[i], evs[i], key)
    ensures evs[i].clock >= since && NoRestart(evs, i, j) ==> AcceptedSince(cfg, tr, evs, j, key, since)
  {
  }

  /** When no later accept is in the way, what counts is the accept at `i`. */
  lemma OnlyEarlier(cfg: Config, tr: seq<State>, evs: seq<Event>, i: nat, j: nat, key: ReplayKey, since: int)
    requires ClockRunsOn(evs) && i < j < |evs| < |tr| && evs[i].Receive?
    requires NoneBetween(cfg, tr, evs, i, j, key) && AcceptedSince(cfg, tr, evs, j, key, since)
    ensures evs[i].clock >= since && NoRestart(evs, i, j)
  {
    var k :| 0 <= k < j && AcceptsAt(cfg, tr[k], evs[k], key) && evs[k].clock >= since && NoRestart(evs, k, j);
    assert k <= i;
  }

  /** So a second accept is to come, at some clock, exactly when the timestamp was
      ahead of the clock or the receiver restarts. */
  lemma SecondUseExactly(auth: AuthConfig, crypto: Crypto, seen: NonceCache, r: Request, first: int, restarts: bool)
    requires Decide(auth, crypto, seen, r, first).Accepted?
    ensures (exists again :: again >= first && UsedAgain(auth, crypto, seen, r, first, restarts, again))
            <==> restarts || first < TimeOf(crypto, r)
  {
    SingleUseExactly(auth, crypto, seen, r, first);
    if restarts {
      AcceptedOnceMore(auth, crypto, seen, first, map[], r, first);
      AcceptedFresh(auth, crypto, seen, r, first);
      assert UsedAgain(auth, crypto, seen, r, first, restarts, first);
    } else {
      assert forall again :: UsedAgain(auth, crypto, seen, r, first, restarts, again) ==
                             AcceptedAgain(auth, crypto, seen, r, first, again);
    }
  }

  /** The request, accepted at `first`, comes again at `again`, perhaps after a
      restart, and is accepted. */
  predicate UsedAgain(auth: AuthConfig, crypto: Crypto, seen: NonceCache, r: Request, first: int, restarts: bool,
                      again: int)
  {
    Decide(auth, crypto, if restarts then map[] else CacheAfter(auth, crypto, seen, r, first), r, again).Accepted?
  }

  /** Any accepted request is accepted again at once after a restart, also when its
      timestamp was not ahead, and becomes a second task. */
  lemma RestartReplays(cfg: Config, s: State, e: Event, id: Str, now: Str)
    requires Enabled(s, e) && e.Receive? && AcceptsAt(cfg, s, e, KeyOf(e.request))
    requires id !in s.issued && id != e.id && PairFree(id)
    ensures var s' := AfterRestart(Step(cfg, s, e));
            var again := Receive(e.request, e.clock, id, now);
            Enabled(s', again) && AcceptsAt(cfg, s', again, KeyOf(e.request))
  {
    AcceptedOnceMore(cfg.auth, cfg.crypto, s.seen, e.clock, map[], e.request, e.clock);
    AcceptedFresh(cfg.auth, cfg.crypto, s.seen, e.request, e.clock);
  }

  // -------------------------------------------------------------------- bounds

  /** The step accepts this nonce of this key under this timestamp. */
  predicate Uses(cfg: Config, s: State, e: Event, key: ReplayKey, time: int) {
    AcceptsAt(cfg, s, e, key) && TimeOf(cfg.crypto, e.request) == time
  }

  /** Accepts of one nonce under one timestamp, in the first `n` steps. */
  function UseCount(cfg: Config, tr: seq<State>, evs: seq<Event>, n: nat, key: ReplayKey, time: int): nat
    requires n <= |evs| < |tr|
  {
    if n == 0 then 0
    else UseCount(cfg, tr, evs, n - 1, key, time) + (if Uses(cfg, tr[n - 1], evs[n - 1], key, time) then 1 else 0)
  }

  function RestartCount(evs: seq<Event>, n: nat): nat
    requires n <= |evs|
  {
    if n == 0 then 0 else RestartCount(evs, n - 1) + (if evs[n - 1].Restart? then 1 else 0)
  }

  /** Accepts since the last restart before step `n`. */
  function SessionCount(cfg: Config, tr: seq<State>, evs: seq<Event>, n: nat, key: ReplayKey, time: int): nat
    requires n <= |evs| < |tr|
  {
    if n == 0 || evs[n - 1].Restart? then 0
    else SessionCount(cfg, tr, evs, n - 1, key, time) + (if Uses(cfg, tr[n - 1], evs[n - 1], key, time) then 1 else 0)
  }

  /** A second accept in one session comes after the timestamp, the first before. */
  lemma UsesAround(cfg: Config, tr: seq<State>, evs: seq<Event>, i: nat, j: nat, key: ReplayKey, time: int)
    requires Run(cfg, tr, evs) && ClockRunsOn(evs) && i < j < |evs| && NoRestart(evs, i, j)
    requires Uses(cfg, tr[i], evs[i], key, time) && Uses(cfg, tr[j], evs[j], key, time)
    ensures evs[i].clock < time < evs[j].clock
  {
    AcceptsApart(cfg, tr, evs, i, j, key);
    AcceptedFresh(cfg.auth, cfg.crypto, tr[i].seen, evs[i].request, evs[i].clock);
    AcceptedFresh(cfg.auth, cfg.crypto, tr[j].seen, evs[j].request, evs[j].clock);
  }

  /** What `count` uses in the session before step `n` mean: with one there is a use,
      with two there is one after the timestamp. */
  ghost predicate UsesBefore(cfg: Config, tr: seq<State>, evs: seq<Event>, n: nat, key: ReplayKey, time: int,
                             count: nat)
    requires n <= |evs| < |tr|
  {
    && (count >= 1 ==> exists i :: 0 <= i < n && Uses(cfg, tr[i], evs[i], key, time) && NoRestart(evs, i, n))
    && (count >= 2 ==> exists i :: 0 <= i < n && Uses(cfg, tr[i], evs[i], key, time) && NoRestart(evs, i, n)
                                   && evs[i].clock > time)
  }

  lemma UsesKept(cfg: Config, tr: seq<State>, evs: seq<Event>, n: nat, key: ReplayKey, time: int, count: nat)
    requires n < |evs| < |tr| && !evs[n].Restart? && UsesBefore(cfg, tr, evs, n, key, time, count)
    ensures UsesBefore(cfg, tr, evs, n + 1, key, time, count)
  {
    if count >= 1 {
      var i :| 0 <= i < n && Uses(cfg, tr[i], evs[i], key, time) && NoRestart(evs, i, n);
      assert NoRestart(evs, i, n + 1);
    }
    if count >= 2 {
      var i :| 0 <= i < n && Uses(cfg, tr[i], evs[i], key, time) && NoRestart(evs, i, n) && evs[i].clock > time;
      assert NoRestart(evs, i, n + 1);
    }
  }

  /** One more use in a session that had fewer than two. */
  lemma UsesAdded(cfg: Config, tr: seq<State>, evs: seq<Event>, n: nat, key: ReplayKey, time: int, count: nat)
    requires Run(cfg, tr, evs) && ClockRunsOn(evs) && n < |evs|
    requires Uses(cfg, tr[n], evs[n], key, time) && UsesBefore(cfg, tr, evs, n, key, time, count)
    ensures count <= 1 && UsesBefore(cfg, tr, evs, n + 1, key, time, count + 1)
  {
    assert NoRestart(evs, n, n + 1);
    if count >= 1 {
      var i :| 0 <= i < n && Uses(cfg, tr[i], evs[i], key, time) && NoRestart(evs, i, n);
      UsesAround(cfg, tr, evs, i, n, key, time);
    }
    if count >= 2 {
      var i :| 0 <= i < n && Uses(cfg, tr[i], evs[i], key, time) && NoRestart(evs, i, n) && evs[i].clock > time;
      UsesAround(cfg, tr, evs, i, n, key, time);
      assert false;
    }
  }

  lemma {:induction false} SessionUses(cfg: Config, tr: seq<State>, evs: seq<Event>, n: nat, key: ReplayKey, time: int)
    requires Run(cfg, tr, evs) && ClockRunsOn(evs) && n <= |evs|
    ensures SessionCount(cfg, tr, evs, n, key, time) <= 2
    ensures UsesBefore(cfg, tr, evs, n, key, time, SessionCount(cfg, tr, evs, n, key, time))
    decreases n
  {
    if n > 0 && !evs[n - 1].Restart? {
      var count := SessionCount(cfg, tr, evs, n - 1, key, time);
      SessionUses(cfg, tr, evs, n - 1, key, time);
      if Uses(cfg, tr[n - 1], evs[n - 1], key, time) {
        UsesAdded(cfg, tr, evs, n - 1, key, time, count);
      } else {
        UsesKept(cfg, tr, evs, n - 1, key, time, count);
      }
    }
  }

  /** A nonce is accepted under one timestamp at most twice between restarts, and so
      at most twice as often as there are sessions in the whole run. */
  lemma {:induction false} UsesAreBounded(cfg: Config, tr: seq<State>, evs: seq<Event>, n: nat, key: ReplayKey,
                                          time: int)
    requires Run(cfg, tr, evs) && ClockRunsOn(evs) && n <= |evs|
    ensures SessionCount(cfg, tr, evs, n, key, time) <= 2
    ensures UseCount(cfg, tr, evs, n, key, time) <=
            2 * RestartCount(evs, n) + SessionCount(cfg, tr, evs, n, key, time)
    decreases n
  {
    SessionUses(cfg, tr, evs, n, key, time);
    if n > 0 {
      UsesAreBounded(cfg, tr, evs, n - 1, key, time);
    }
  }
}
