/** Request authentication: HMAC headers, clock window and nonce cache.
    SHA-256, HMAC and the non-decimal forms of Python's int() are arbitrary
    functions; the clock is an input of each call. */
module Authentication {
  import opened Options
  import opened Json

  type Byte = b: int | 0 <= b < 256
  type Bytes = seq<Byte>

  datatype Crypto = Crypto(
    sha256: Bytes -> Str,
    hmac: (Str, Str) -> Str,
    otherInt: Str -> Option<int>)

  /** The four A2A headers; a missing header is None. */
  datatype Headers = Headers(
    keyId: Option<Str>, timestamp: Option<Str>, nonce: Option<Str>, signature: Option<Str>)

  datatype Request = Request(headers: Headers, body: Bytes)

  /** One value of the `peers` table; a secret or URL that is missing or not a
      string is None. */
  datatype PeerEntry = NotADict | PeerDict(secret: Option<Str>, senderUrl: Option<Str>)

  datatype AuthConfig = AuthConfig(
    required: bool, allowAnonymous: bool, skew: int, peers: map<Str, PeerEntry>)

  datatype Peer = Peer(keyId: Str, senderUrl: Str)

  datatype Reason =
    | Unauthenticated | Incomplete | UnknownKey | BadConfiguration
    | BadTimestamp | Expired | Replayed | BadSignature

  /** `Raised` is an exception out of verify: text that cannot be encoded, or a
      signature that hmac.compare_digest does not take. */
  datatype Verdict = Anonymous | Accepted(peer: Peer) | Refused(reason: Reason) | Raised

  type ReplayKey = (Str, Str)
  type NonceCache = map<ReplayKey, int>

  // ---------------------------------------------------------- small pieces

  predicate Truthy(h: Option<Str>) { h.Some? && h.value != [] }

  predicate IsPlainDecimal(s: Str) {
    s != [] && forall i :: 0 <= i < |s| ==> 48 <= s[i] <= 57
  }

  function DecimalValue(s: Str): int
    requires forall i :: 0 <= i < |s| ==> 48 <= s[i] <= 57
  {
    if s == [] then 0 else 10 * DecimalValue(s[..|s| - 1]) + (s[|s| - 1] - 48)
  }

  /** Python's int(str): plain digits have their decimal value, signs, spaces,
      underscores and other digits are left to `otherInt`. */
  function ParseInt(crypto: Crypto, s: Str): Option<int> {
    if IsPlainDecimal(s) then Some(DecimalValue(s)) else crypto.otherInt(s)
  }

  /** str(n) for n >= 0. */
  function Decimal(n: nat): Str {
    if n < 10 then [48 + n] else Decimal(n / 10) + [48 + n % 10]
  }

  const NEWLINE: Str := [10]

  function SigningInput(timestamp: Str, nonce: Str, digest: Str): Str {
    timestamp + NEWLINE + nonce + NEWLINE + digest
  }

  /** str.encode() fails on surrogates. */
  predicate Encodable(s: Str) { forall i :: 0 <= i < |s| ==> !(0xD800 <= s[i] < 0xE000) }

  predicate IsAscii(s: Str) { forall i :: 0 <= i < |s| ==> s[i] < 128 }

  // -------------------------------------------- verify, as a pure decision

  /** Everything verify looks at apart from the nonce cache: either it answers
      at once, or it reaches the cache with a key and the answer that a fresh
      nonce gets. */
  datatype Check = Done(verdict: Verdict) | AskCache(key: ReplayKey, ifFresh: Verdict)

  function CheckSignature(crypto: Crypto, secret: Str, timestamp: Str, nonce: Str, body: Bytes,
                          signature: Str, peer: Peer): Verdict
  {
    if !Encodable(secret) || !Encodable(timestamp) || !Encodable(nonce) || !IsAscii(signature) then Raised
    else if crypto.hmac(secret, SigningInput(timestamp, nonce, crypto.sha256(body))) != signature then
      Refused(BadSignature)
    else Accepted(peer)
  }

  function Abs(n: int): nat { if n < 0 then -n else n }

  function Precheck(config: AuthConfig, crypto: Crypto, request: Request, now: int): Check {
    var h := request.headers;
    if !Truthy(h.keyId) && !Truthy(h.timestamp) && !Truthy(h.nonce) && !Truthy(h.signature) then
      Done(if config.allowAnonymous || !config.required then Anonymous else Refused(Unauthenticated))
    else if !(Truthy(h.keyId) && Truthy(h.timestamp) && Truthy(h.nonce) && Truthy(h.signature)) then
      Done(Refused(Incomplete))
    else if h.keyId.value !in config.peers || config.peers[h.keyId.value].NotADict? then
      Done(Refused(UnknownKey))
    else
      var entry := config.peers[h.keyId.value];
      if !Truthy(entry.secret) || entry.senderUrl.None? then Done(Refused(BadConfiguration))
      else
        var time := ParseInt(crypto, h.timestamp.value);
        if time.None? then Done(Refused(BadTimestamp))
        else if Abs(now - time.value) > config.skew then Done(Refused(Expired))
        else
          AskCache((h.keyId.value, h.nonce.value),
            CheckSignature(crypto, entry.secret.value, h.timestamp.value, h.nonce.value, request.body,
              h.signature.value, Peer(h.keyId.value, entry.senderUrl.value)))
  }

  function Prune(seen: NonceCache, cutoff: int): NonceCache {
    map k | k in seen && seen[k] >= cutoff :: seen[k]
  }

  function Decide(config: AuthConfig, crypto: Crypto, seen: NonceCache, request: Request, now: int): Verdict {
    match Precheck(config, crypto, request, now)
    case Done(v) => v
    case AskCache(key, ifFresh) =>
      if key in Prune(seen, now - config.skew) then Refused(Replayed) else ifFresh
  }

  /** The cache after the call: untouched before the clock check, pruned after
      it, extended on an accept. */
  function CacheAfter(config: AuthConfig, crypto: Crypto, seen: NonceCache, request: Request, now: int): NonceCache {
    match Precheck(config, crypto, request, now)
    case Done(_) => seen
    case AskCache(key, ifFresh) =>
      var pruned := Prune(seen, now - config.skew);
      if key !in pruned && ifFresh.Accepted? then pruned[key := now] else pruned
  }

  // ---------------------------------------------------------- what it decides

  /** A header that is not there, or empty. */
  predicate Missing(h: Option<Str>) { h == None || h == Some([]) }

  predicate NoHeader(h: Headers) {
    Missing(h.keyId) && Missing(h.timestamp) && Missing(h.nonce) && Missing(h.signature)
  }

  /** The request proves that it comes from this peer: all headers are there; the key is
      a configured one with a secret, and bound to the peer's URL; the timestamp is at
      most the skew away; the nonce was not accepted within the skew; and the signature
      is that of timestamp, nonce and body under the secret. */
  predicate IsAuthentic(config: AuthConfig, crypto: Crypto, seen: NonceCache, request: Request, now: int, peer: Peer) {
    var h := request.headers;
    && peer.keyId != [] && h.keyId == Some(peer.keyId)
    && !Missing(h.timestamp) && !Missing(h.nonce) && !Missing(h.signature)
    && peer.keyId in config.peers && config.peers[peer.keyId].PeerDict?
    && !Missing(config.peers[peer.keyId].secret) && config.peers[peer.keyId].senderUrl == Some(peer.senderUrl)
    && IsTimely(crypto, h.timestamp.value, now, config.skew)
    && !((peer.keyId, h.nonce.value) in seen && seen[(peer.keyId, h.nonce.value)] >= now - config.skew)
    && IsSigned(crypto, config.peers[peer.keyId].secret.value, h.timestamp.value, h.nonce.value, request.body,
                h.signature.value)
  }

  predicate IsTimely(crypto: Crypto, timestamp: Str, now: int, skew: int) {
    var time := ParseInt(crypto, timestamp);
    time.Some? && now - skew <= time.value <= now + skew
  }

  predicate IsSigned(crypto: Crypto, secret: Str, timestamp: Str, nonce: Str, body: Bytes, signature: Str) {
    && Encodable(secret) && Encodable(timestamp) && Encodable(nonce) && IsAscii(signature)
    && signature == crypto.hmac(secret, timestamp + [10] + nonce + [10] + crypto.sha256(body))
  }

  /** A request is accepted exactly when it is authentic; it passes without a peer
      exactly when it has no header at all, and anonymous contact is allowed or
      authentication not required; and without headers it is refused otherwise. */
  lemma VerdictExactly(config: AuthConfig, crypto: Crypto, seen: NonceCache, request: Request, now: int)
    ensures forall peer ::
              Decide(config, crypto, seen, request, now) == Accepted(peer) <==>
              IsAuthentic(config, crypto, seen, request, now, peer)
    ensures Decide(config, crypto, seen, request, now) == Anonymous <==>
            NoHeader(request.headers) && (config.allowAnonymous || !config.required)
    ensures NoHeader(request.headers) && !config.allowAnonymous && config.required ==>
              Decide(config, crypto, seen, request, now) == Refused(Unauthenticated)
  {
    forall peer
      ensures Decide(config, crypto, seen, request, now) == Accepted(peer) <==>
              IsAuthentic(config, crypto, seen, request, now, peer)
    {
      AcceptedExactly(config, crypto, seen, request, now, peer);
    }
  }

  lemma AcceptedExactly(config: AuthConfig, crypto: Crypto, seen: NonceCache, request: Request, now: int, peer: Peer)
    ensures Decide(config, crypto, seen, request, now) == Accepted(peer) <==>
            IsAuthentic(config, crypto, seen, request, now, peer)
  {
  }

  // ------------------------------------------------------ the authenticator

  class RequestAuthenticator {
    const config: AuthConfig
    const crypto: Crypto
    var seenNonces: NonceCache

    constructor (config: AuthConfig, crypto: Crypto)
      ensures this.config == config && this.crypto == crypto && seenNonces == map[]
    {
      this.config := config;
      this.crypto := crypto;
      seenNonces := map[];
    }

    method Verify(request: Request, now: int) returns (verdict: Verdict)
      modifies this`seenNonces
      ensures verdict == Decide(config, crypto, old(seenNonces), request, now)
      ensures seenNonces == CacheAfter(config, crypto, old(seenNonces), request, now)
    {
      var h := request.headers;
      if !Truthy(h.keyId) && !Truthy(h.timestamp) && !Truthy(h.nonce) && !Truthy(h.signature) {
        if config.allowAnonymous {
          return Anonymous;
        }
        if !config.required {
          return Anonymous;
        }
        return Refused(Unauthenticated);
      }
      if !Truthy(h.keyId) || !Truthy(h.timestamp) || !Truthy(h.nonce) || !Truthy(h.signature) {
        return Refused(Incomplete);
      }
      var keyId, timestamp, nonce, signature :=
        h.keyId.value, h.timestamp.value, h.nonce.value, h.signature.value;
      if keyId !in config.peers || config.peers[keyId].NotADict? {
        return Refused(UnknownKey);
      }
      var entry := config.peers[keyId];
      if !Truthy(entry.secret) || entry.senderUrl.None? {
        return Refused(BadConfiguration);
      }
      var requestTime := ParseInt(crypto, timestamp);
      if requestTime.None? {
        return Refused(BadTimestamp);
      }
      if Abs(now - requestTime.value) > config.skew {
        return Refused(Expired);
      }
      seenNonces := Prune(seenNonces, now - config.skew);
      var replayKey := (keyId, nonce);
      if replayKey in seenNonces {
        return Refused(Replayed);
      }
      verdict := CheckSignature(crypto, entry.secret.value, timestamp, nonce, request.body, signature,
                                Peer(keyId, entry.senderUrl.value));
      if !verdict.Accepted? {
        return;
      }
      seenNonces := seenNonces[replayKey := now];
    }
  }

  // ------------------------------------------------------------- the client

  /** `_signed_headers`: None stands for the ValueError on missing credentials;
      the nonce is secrets.token_hex(16). */
  function SignedHeaders(crypto: Crypto, body: Bytes, keyId: Str, secret: Str, clock: nat, nonce: Str): Option<Headers>
  {
    if keyId == [] || secret == [] then None
    else
      var timestamp := Decimal(clock);
      var signature := crypto.hmac(secret, SigningInput(timestamp, nonce, crypto.sha256(body)));
      Some(Headers(Some(keyId), Some(timestamp), Some(nonce), Some(signature)))
  }
}
