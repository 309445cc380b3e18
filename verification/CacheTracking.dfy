/**
 Detection of broken append-only prefixes by chained hashes
 (crates/jcode-base/src/cache_tracker.rs), the session's cached prefix hashes
 (crates/jcode-base/src/session.rs) and the agent's choice between the two paths
 (crates/jcode-app-core/src/agent.rs). The hash functions are arbitrary.
 */
module CacheTracking {
  import opened Prelude

  type Hash = x: int | 0 <= x < 0x1_0000_0000_0000_0000

  const MAX_HISTORY := 10

  /** `stable_message_hash` and `extend_stable_hash`. */
  datatype Hashing<!M> = Hashing(message: M -> Hash, extend: (Hash, Hash) -> Hash)

  /** The chained hash of a message list; the empty list counts as 0. */
  function FullHash<M>(h: Hashing<M>, ms: seq<M>): Hash {
    if ms == [] then 0
    else if |ms| == 1 then h.message(ms[0])
    else h.extend(FullHash(h, ms[..|ms| - 1]), h.message(ms[|ms| - 1]))
  }

  /** `hashes` lists the hash of every non-empty prefix, shortest first. */
  ghost predicate ArePrefixHashes<M>(h: Hashing<M>, ms: seq<M>, hashes: seq<Hash>) {
    && |hashes| == |ms|
    && forall i :: 0 <= i < |ms| ==> hashes[i] == FullHash(h, ms[..i + 1])
  }

  /** Told from the two base functions alone: the first message's hash, then each extended by the next. */
  ghost predicate IsChain<M>(h: Hashing<M>, ms: seq<M>, hashes: seq<Hash>) {
    && |hashes| == |ms|
    && (ms != [] ==> hashes[0] == h.message(ms[0]))
    && forall i, j :: 0 <= i && j == i + 1 < |ms| ==> hashes[j] == h.extend(hashes[i], h.message(ms[j]))
  }

  /** The prefix hashes are such a chain, and the only one. */
  lemma PrefixHashesAreChain<M>(h: Hashing<M>, ms: seq<M>, hashes: seq<Hash>)
    ensures ArePrefixHashes(h, ms, hashes) <==> IsChain(h, ms, hashes)
  {
    if ArePrefixHashes(h, ms, hashes) {
      forall i, j | 0 <= i && j == i + 1 < |ms| ensures hashes[j] == h.extend(hashes[i], h.message(ms[j])) {
        assert ms[..j + 1][..j] == ms[..i + 1];
      }
    }
    if IsChain(h, ms, hashes) {
      forall i | 0 <= i < |ms| ensures hashes[i] == FullHash(h, ms[..i + 1]) {
        ChainReaches(h, ms, hashes, i);
      }
    }
  }

  lemma {:induction false} ChainReaches<M>(h: Hashing<M>, ms: seq<M>, hashes: seq<Hash>, i: nat)
    requires IsChain(h, ms, hashes) && i < |ms|
    ensures hashes[i] == FullHash(h, ms[..i + 1])
  {
    if i > 0 {
      ChainReaches(h, ms, hashes, i - 1);
      assert ms[..i + 1][..i] == ms[..i];
    }
  }

  function Chained<M>(h: Hashing<M>, hashes: seq<Hash>, m: M): Hash {
    if hashes == [] then h.message(m) else h.extend(hashes[|hashes| - 1], h.message(m))
  }

  lemma ChainedIsNext<M>(h: Hashing<M>, ms: seq<M>, m: M, hashes: seq<Hash>)
    requires ArePrefixHashes(h, ms, hashes)
    ensures ArePrefixHashes(h, ms + [m], hashes + [Chained(h, hashes, m)])
  {
    var longer := ms + [m];
    assert longer[..|longer| - 1] == ms && longer[..|longer|] == longer;
    assert ms[..|ms|] == ms;
    forall i | 0 <= i < |ms| ensures hashes[i] == FullHash(h, longer[..i + 1]) {
      assert longer[..i + 1] == ms[..i + 1];
    }
  }

  method PrefixHashesForMessages<M>(h: Hashing<M>, messages: seq<M>) returns (hashes: seq<Hash>)
    ensures ArePrefixHashes(h, messages, hashes) && IsChain(h, messages, hashes)
  {
    hashes := [];
    for i := 0 to |messages|
      invariant ArePrefixHashes(h, messages[..i], hashes)
    {
      ChainedIsNext(h, messages[..i], messages[i], hashes);
      assert messages[..i + 1] == messages[..i] + [messages[i]];
      hashes := hashes + [Chained(h, hashes, messages[i])];
    }
    assert messages[..|messages|] == messages;
    PrefixHashesAreChain(h, messages, hashes);
  }

  // ----- what the tracker should answer, told from the requests themselves -----

  datatype Reason = MessagesRemoved(had: nat, now: nat) | PrefixModified(count: nat)

  datatype Violation = Violation(turn: nat, messageCount: nat, expected: Hash, actual: Hash, reason: Reason)

  predicate Reported<M>(h: Hashing<M>, previous: seq<M>, current: seq<M>) {
    |current| < |previous| || FullHash(h, current[..|previous|]) != FullHash(h, previous)
  }

  /** At position i two different messages, or two different pairs, were hashed to the same value. */
  ghost predicate CollideAt<M>(h: Hashing<M>, a: seq<M>, ca: seq<Hash>, b: seq<M>, cb: seq<Hash>, i: nat)
    requires i < |a| == |ca| && i < |b| == |cb|
  {
    || (a[i] != b[i] && h.message(a[i]) == h.message(b[i]))
    || (i > 0 && (ca[i - 1], h.message(a[i])) != (cb[i - 1], h.message(b[i]))
        && h.extend(ca[i - 1], h.message(a[i])) == h.extend(cb[i - 1], h.message(b[i])))
  }

  /** One of the two base functions collides while hashing the first n messages of both lists. */
  ghost predicate BaseCollision<M(!new)>(h: Hashing<M>, a: seq<M>, b: seq<M>, n: nat)
    requires n <= |a| && n <= |b|
  {
    exists ca, cb, i :: IsChain(h, a, ca) && IsChain(h, b, cb) && 0 <= i < n && CollideAt(h, a, ca, b, cb, i)
  }

  /** Different lists whose chains meet had a collision of a base function on the way. */
  lemma {:induction false} ChainsMeet<M>(h: Hashing<M>, a: seq<M>, ca: seq<Hash>, b: seq<M>, cb: seq<Hash>, n: nat)
    returns (i: nat)
    requires IsChain(h, a, ca) && IsChain(h, b, cb) && 0 < n <= |a| && n <= |b|
    requires a[..n] != b[..n] && ca[n - 1] == cb[n - 1]
    ensures i < n && CollideAt(h, a, ca, b, cb, i)
  {
    i := n - 1;
    if n > 1 && !CollideAt(h, a, ca, b, cb, i) {
      assert a[..n] == a[..i] + [a[i]] && b[..n] == b[..i] + [b[i]];
      i := ChainsMeet(h, a, ca, b, cb, n - 1);
    }
  }

  /** The hashes of all non-empty prefixes. */
  ghost function PrefixHashes<M>(h: Hashing<M>, ms: seq<M>): (c: seq<Hash>)
    ensures ArePrefixHashes(h, ms, c)
  {
    seq(|ms|, i requires 0 <= i < |ms| => FullHash(h, ms[..i + 1]))
  }

  /** Under any hash functions, a request that extends its predecessor is not reported. */
  lemma ExtensionNeverReported<M>(h: Hashing<M>, previous: seq<M>, current: seq<M>)
    requires previous <= current
    ensures !Reported(h, previous, current)
  {
    assert current[..|previous|] == previous;
  }

  /** A violation is reported exactly when messages are missing or the chains differ after the previous list; */
  lemma ReportedExactly<M>(h: Hashing<M>, previous: seq<M>, current: seq<M>, cp: seq<Hash>, cc: seq<Hash>)
    requires IsChain(h, previous, cp) && IsChain(h, current, cc)
    ensures var n := |previous|;
            Reported(h, previous, current) <==> |current| < n || (n > 0 && cp[n - 1] != cc[n - 1])
  {
    PrefixHashesAreChain(h, previous, cp);
    PrefixHashesAreChain(h, current, cc);
    assert previous[..|previous|] == previous;
  }

  /** hence never without a broken prefix, and a broken prefix goes unreported only if a base function collides. */
  lemma ReportMeansBroken<M(!new)>(h: Hashing<M>, previous: seq<M>, current: seq<M>)
    ensures Reported(h, previous, current) ==> !(previous <= current)
    ensures !Reported(h, previous, current) && !(previous <= current) ==>
              |previous| <= |current| && BaseCollision(h, previous, current, |previous|)
  {
    if previous <= current {
      ExtensionNeverReported(h, previous, current);
    } else if !Reported(h, previous, current) {
      var cp, cc := PrefixHashes(h, previous), PrefixHashes(h, current);
      PrefixHashesAreChain(h, previous, cp);
      PrefixHashesAreChain(h, current, cc);
      ReportedExactly(h, previous, current, cp, cc);
      assert previous[..|previous|] == previous;
      var i := ChainsMeet(h, previous, cp, current, cc, |previous|);
    }
  }

  /** The state after a list of requests since the last reset. */
  datatype Tracker = Tracker(
    previousPrefixHash: Option<Hash>, previousMessageCount: nat, turnCount: nat,
    hashHistory: seq<Hash>, lastViolation: Option<Violation>)

  function Verdict<M>(h: Hashing<M>, turn: nat, previous: seq<M>, current: seq<M>): Option<Violation> {
    if !Reported(h, previous, current) then None
    else if |current| < |previous| then
      Some(Violation(turn, |current|, FullHash(h, previous), FullHash(h, current),
                     MessagesRemoved(|previous|, |current|)))
    else
      Some(Violation(turn, |current|, FullHash(h, previous), FullHash(h, current[..|previous|]),
                     PrefixModified(|previous|)))
  }

  function LastTen(s: seq<Hash>): seq<Hash> {
    if |s| <= 10 then s else s[|s| - 10..]
  }

  function Hashes<M>(h: Hashing<M>, requests: seq<seq<M>>): seq<Hash> {
    seq(|requests|, i requires 0 <= i < |requests| => FullHash(h, requests[i]))
  }

  /** Everything the tracker keeps is determined by the requests it was shown. */
  function After<M>(h: Hashing<M>, requests: seq<seq<M>>): Tracker {
    if requests == [] then Tracker(None, 0, 0, [], None)
    else
      var n := |requests|;
      var current := requests[n - 1];
      Tracker(Some(FullHash(h, current)), |current|, n, LastTen(Hashes(h, requests)),
              if n == 1 then None else Verdict(h, n, requests[n - 2], current))
  }

  /** Along any request sequence: never a false alarm, and a missed break only by a collision of a base function. */
  lemma AlarmsMeanBrokenPrefix<M(!new)>(h: Hashing<M>, requests: seq<seq<M>>)
    requires |requests| > 0
    ensures var n := |requests|;
            var alarm := After(h, requests).lastViolation.Some?;
            if n == 1 then !alarm
            else
              var previous, current := requests[n - 2], requests[n - 1];
              && (alarm ==> !(previous <= current))
              && (!(previous <= current) && !alarm ==>
                    |previous| <= |current| && BaseCollision(h, previous, current, |previous|))
  {
    if |requests| > 1 {
      ReportMeansBroken(h, requests[|requests| - 2], requests[|requests| - 1]);
    }
  }

  /** `push_back`, then `pop_front` past the limit. */
  function Slide(history: seq<Hash>, hash: Hash): seq<Hash> {
    var kept := history + [hash];
    if |kept| > MAX_HISTORY then kept[1..] else kept
  }

  /** One more request, field by field. */
  lemma AfterOneMore<M>(h: Hashing<M>, requests: seq<seq<M>>, ms: seq<M>)
    ensures var t, t' := After(h, requests), After(h, requests + [ms]);
            && t'.previousPrefixHash == Some(FullHash(h, ms)) && t'.previousMessageCount == |ms|
            && t'.turnCount == t.turnCount + 1 && t.turnCount == |requests|
            && t'.hashHistory == Slide(t.hashHistory, FullHash(h, ms))
            && (requests == [] ==> t'.lastViolation == None)
            && (requests != [] ==>
                  var previous := requests[|requests| - 1];
                  && t.previousPrefixHash == Some(FullHash(h, previous)) && t.previousMessageCount == |previous|
                  && t'.lastViolation == Verdict(h, t'.turnCount, previous, ms))
  {
    assert Hashes(h, requests + [ms]) == Hashes(h, requests) + [FullHash(h, ms)];
  }

  class CacheTracker<M> {
    const hashing: Hashing<M>
    var previousPrefixHash: Option<Hash>
    var previousMessageCount: nat
    var turnCount: nat
    var hashHistory: seq<Hash>
    var lastViolation: Option<Violation>
    /** The message lists recorded since the last reset. */
    ghost var requests: seq<seq<M>>

    ghost function State(): Tracker
      reads this
    {
      Tracker(previousPrefixHash, previousMessageCount, turnCount, hashHistory, lastViolation)
    }

    ghost predicate Valid()
      reads this
    {
      State() == After(hashing, requests)
    }

    constructor (hashing: Hashing<M>)
      ensures Valid() && requests == [] && this.hashing == hashing
    {
      this.hashing := hashing;
      previousPrefixHash, previousMessageCount, turnCount := None, 0, 0;
      hashHistory, lastViolation, requests := [], None, [];
    }

    method Reset()
      modifies this
      ensures Valid() && requests == []
    {
      previousPrefixHash, previousMessageCount, turnCount := None, 0, 0;
      hashHistory, lastViolation, requests := [], None, [];
    }

    method RecordRequest(messages: seq<M>) returns (violation: Option<Violation>)
      requires Valid()
      modifies this
      ensures Valid() && requests == old(requests) + [messages] && violation == lastViolation
    {
      var hashes := PrefixHashesForMessages(hashing, messages);
      violation := RecordPrefixHashes(hashes, messages);
    }

    method RecordPrefixHashes(hashes: seq<Hash>, ghost messages: seq<M>) returns (violation: Option<Violation>)
      requires Valid() && ArePrefixHashes(hashing, messages, hashes)
      modifies this
      ensures Valid() && requests == old(requests) + [messages] && violation == lastViolation
    {
      var currentCount := |hashes|;
      var currentFullHash := if currentCount == 0 then None else Some(hashes[currentCount - 1]);
      var previousCount := previousMessageCount;
      var atPrevious := if previousCount == 0 || previousCount > currentCount then None
                        else Some(hashes[previousCount - 1]);
      assert messages[..|messages|] == messages;
      violation := RecordPrefixHashSnapshot(currentCount, atPrevious, currentFullHash, messages);
    }

    /** Constant-size input: a count and at most two hashes stand for the whole list. */
    method RecordPrefixHashSnapshot(
      currentCount: nat, atPrevious: Option<Hash>, currentFullHash: Option<Hash>, ghost messages: seq<M>
    ) returns (violation: Option<Violation>)
      requires Valid() && currentCount == |messages|
      requires currentFullHash == if messages == [] then None else Some(FullHash(hashing, messages))
      requires atPrevious == if previousMessageCount == 0 || previousMessageCount > currentCount then None
                             else Some(FullHash(hashing, messages[..previousMessageCount]))
      modifies this
      ensures Valid() && requests == old(requests) + [messages] && violation == lastViolation
    {
      hide After, FullHash;
      AfterOneMore(hashing, requests, messages);
      EmptyHash(hashing);
      requests := requests + [messages];
      turnCount := turnCount + 1;
      var fullHash := UnwrapOrZero(currentFullHash);
      if turnCount == 1 || previousPrefixHash == None {
        Remember(fullHash, currentCount);
        lastViolation := None;
        return None;
      }
      var previousHash, previousCount := previousPrefixHash.value, previousMessageCount;
      if currentCount < previousCount {
        violation := Some(Violation(turnCount, currentCount, previousHash, fullHash,
                                    MessagesRemoved(previousCount, currentCount)));
        Remember(fullHash, currentCount);
        lastViolation := violation;
        return;
      }
      var prefixHash := UnwrapOrZero(atPrevious);
      if prefixHash != previousHash {
        violation := Some(Violation(turnCount, currentCount, previousHash, prefixHash,
                                    PrefixModified(previousCount)));
        Remember(fullHash, currentCount);
        lastViolation := violation;
        return;
      }
      Remember(fullHash, currentCount);
      lastViolation := None;
      return None;
    }

    /** The state update shared by every branch. */
    method Remember(hash: Hash, count: nat)
      modifies this`previousPrefixHash, this`previousMessageCount, this`hashHistory
      ensures previousPrefixHash == Some(hash) && previousMessageCount == count
      ensures hashHistory == Slide(old(hashHistory), hash)
    {
      previousPrefixHash := Some(hash);
      previousMessageCount := count;
      hashHistory := hashHistory + [hash];
      if |hashHistory| > MAX_HISTORY {
        hashHistory := hashHistory[1..];
      }
    }
  }

  lemma EmptyHash<M>(h: Hashing<M>)
    ensures FullHash(h, []) == 0
  {
  }

  function UnwrapOrZero(h: Option<Hash>): Hash {
    match h
    case None => 0
    case Some(v) => v
  }

  // ----- the session's cached copy and its prefix hashes -----

  datatype CacheMode = Full | Append | Clean

  class Session<M> {
    const hashing: Hashing<M>
    var messages: seq<M>
    var cache: seq<M>
    var hashesCache: seq<Hash>
    var cacheLen: nat
    var mode: CacheMode

    /** Unless it is due for a rebuild, the cache holds a prefix; when clean, all of it. */
    ghost predicate Valid()
      reads this
    {
      mode != Full ==>
        && cacheLen <= |messages| && cache == messages[..cacheLen]
        && ArePrefixHashes(hashing, cache, hashesCache)
        && (mode == Clean ==> cacheLen == |messages|)
    }

    constructor (hashing: Hashing<M>)
      ensures Valid() && messages == [] && this.hashing == hashing
    {
      this.hashing := hashing;
      messages, cache, hashesCache, cacheLen, mode := [], [], [], 0, Full;
    }

    method AppendMessage(m: M)
      requires Valid()
      modifies this
      ensures Valid() && messages == old(messages) + [m]
      ensures cache == old(cache) && hashesCache == old(hashesCache) && cacheLen == old(cacheLen)
      ensures mode == if old(mode) == Full then Full else Append
    {
      messages := messages + [m];
      if mode != Full {
        mode := Append;
      }
    }

    method InsertMessage(index: nat, m: M)
      requires Valid() && index <= |messages|
      modifies this
      ensures Valid() && messages == old(messages)[..index] + [m] + old(messages)[index..]
      ensures mode == Full
    {
      messages := messages[..index] + [m] + messages[index..];
      mode := Full;
    }

    method ReplaceMessages(ms: seq<M>)
      requires Valid()
      modifies this
      ensures Valid() && messages == ms && mode == Full
    {
      messages := ms;
      mode := Full;
    }

    method TruncateMessages(len: nat)
      requires Valid()
      modifies this
      ensures Valid() && messages == if len < |old(messages)| then old(messages)[..len] else old(messages)
      ensures mode == if len < |old(messages)| then Full else old(mode)
    {
      if len < |messages| {
        messages := messages[..len];
        mode := Full;
      }
    }

    method ReleaseProviderMessagesCache()
      requires Valid()
      modifies this
      ensures Valid() && messages == old(messages)
      ensures cache == [] && hashesCache == [] && cacheLen == 0 && mode == Full
    {
      cache, hashesCache, cacheLen, mode := [], [], 0, Full;
    }

    method PushCacheEntry(m: M)
      requires ArePrefixHashes(hashing, cache, hashesCache)
      modifies this`cache, this`hashesCache
      ensures cache == old(cache) + [m] && ArePrefixHashes(hashing, cache, hashesCache)
      ensures hashesCache[..|hashesCache| - 1] == old(hashesCache)
    {
      ChainedIsNext(hashing, cache, m, hashesCache);
      hashesCache := hashesCache + [Chained(hashing, hashesCache, m)];
      cache := cache + [m];
    }

    method ProviderMessages() returns (ms: seq<M>)
      requires Valid()
      modifies this
      ensures Valid() && messages == old(messages) && ms == messages
      ensures cache == messages && cacheLen == |messages|
      ensures mode == if old(mode) == Append && old(cacheLen) == |messages| then Append else Clean
      ensures ArePrefixHashes(hashing, messages, hashesCache) && IsChain(hashing, messages, hashesCache)
    {
      if mode == Full || cacheLen > |messages| {
        cache, hashesCache := [], [];
        Extend(0);
      } else if mode == Append && cacheLen < |messages| {
        Extend(cacheLen);
      }
      assert messages[..|messages|] == messages;
      PrefixHashesAreChain(hashing, messages, hashesCache);
      ms := cache;
    }

    method Extend(from: nat)
      requires from <= |messages| && cache == messages[..from] && ArePrefixHashes(hashing, cache, hashesCache)
      modifies this
      ensures messages == old(messages) && cache == messages && mode == Clean && cacheLen == |messages|
      ensures ArePrefixHashes(hashing, cache, hashesCache)
    {
      for index := from to |messages|
        invariant messages == old(messages) && cache == messages[..index]
        invariant ArePrefixHashes(hashing, cache, hashesCache)
      {
        PushCacheEntry(messages[index]);
      }
      cacheLen := |messages|;
      mode := Clean;
    }

    method ProviderMessagePrefixHashes() returns (hashes: seq<Hash>)
      requires Valid()
      modifies this
      ensures Valid() && messages == old(messages)
      ensures ArePrefixHashes(hashing, messages, hashes) && IsChain(hashing, messages, hashes)
    {
      var _ := ProviderMessages();
      hashes := hashesCache;
    }
  }

  /**
   The agent's recording: either path leaves what the full path over the recorded
   list would, so any mix of them equals the full path alone.
   */
  method RecordClientCacheRequest<M>(
    tracker: CacheTracker<M>, session: Session<M>, messages: seq<M>, enabled: bool, fast: bool
  ) returns (violation: Option<Violation>)
    requires tracker.Valid() && session.Valid() && tracker.hashing == session.hashing
    modifies tracker, session
    ensures tracker.Valid() && session.Valid() && session.messages == old(session.messages)
    ensures !enabled ==> tracker.requests == old(tracker.requests) && violation == None
    ensures enabled ==> violation == tracker.lastViolation
    ensures enabled ==> tracker.requests == old(tracker.requests) + [if fast then session.messages else messages]
  {
    if !enabled {
      return None;
    }
    if fast {
      var previousCount := tracker.previousMessageCount;
      var hashes := session.ProviderMessagePrefixHashes();
      var currentCount := |hashes|;
      var currentFullHash := if currentCount == 0 then None else Some(hashes[currentCount - 1]);
      var atPrevious := if previousCount == 0 || previousCount > currentCount then None
                        else Some(hashes[previousCount - 1]);
      assert session.messages[..|session.messages|] == session.messages;
      violation := tracker.RecordPrefixHashSnapshot(currentCount, atPrevious, currentFullHash, session.messages);
    } else {
      violation := tracker.RecordRequest(messages);
    }
  }
}
