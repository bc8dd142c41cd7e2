/** internal/auth/auth_cache.go as one thread sees it: the map of entries, updated in place. */
module TokenCache {
  import opened Wrappers

  type Time = int
  type Token = string

  datatype Entry = Entry(username: string, expiresAt: Time)

  type Entries = map<Token, Entry>

  /** now.After(entry.expiresAt); an entry is still good at the very moment it expires. */
  predicate Expired(e: Entry, now: Time) {
    now > e.expiresAt
  }

  function With(entries: Entries, token: Token, username: string, now: Time, ttl: Time): Entries {
    entries[token := Entry(username, now + ttl)]
  }

  function Unexpired(entries: Entries, now: Time): Entries {
    map token | token in entries && !Expired(entries[token], now) :: entries[token]
  }

  /** What a map that never deletes would answer. */
  function Answer(entries: Entries, token: Token, now: Time): Option<string> {
    if token in entries && !Expired(entries[token], now) then Some(entries[token].username) else None
  }

  /** `Wait` lets time pass. */
  datatype Call = Get(token: Token) | Set(token: Token, username: string) | Sweep | Wait(duration: nat)

  datatype Cached = Cached(entries: Entries, now: Time)

  /** One operation on the cache. */
  function Perform(c: Cached, call: Call, ttl: Time): (Cached, Option<string>) {
    match call
    case Get(token) =>
      var gone := token in c.entries && Expired(c.entries[token], c.now);
      (if gone then c.(entries := c.entries - {token}) else c, Answer(c.entries, token, c.now))
    case Set(token, username) => (c.(entries := With(c.entries, token, username, c.now, ttl)), None)
    case Sweep => (c.(entries := Unexpired(c.entries, c.now)), None)
    case Wait(duration) => (c.(now := c.now + duration), None)
  }

  class Cache {
    var entries: Entries
    const ttl: Time

    constructor (ttl: Time)
      ensures entries == map[] && this.ttl == ttl
    {
      entries := map[];
      this.ttl := ttl;
    }

    /** The first phase of get, under the read lock. */
    method Find(token: Token) returns (entry: Option<Entry>)
      ensures entry == if token in entries then Some(entries[token]) else None
    {
      return if token in entries then Some(entries[token]) else None;
    }

    /** The second phase, which deletes whatever is there by then. */
    method Judge(token: Token, entry: Option<Entry>, now: Time) returns (username: Option<string>)
      modifies this
      ensures username == if entry.Some? && now <= entry.value.expiresAt then Some(entry.value.username) else None
      ensures entries == if entry.Some? && now > entry.value.expiresAt then old(entries) - {token} else old(entries)
    {
      if entry.None? {
        return None;
      }
      if Expired(entry.value, now) {
        entries := entries - {token};
        return None;
      }
      return Some(entry.value.username);
    }

    /** Without interference the answer is that of a map that never deletes. */
    method Get(token: Token, now: Time) returns (username: Option<string>)
      modifies this
      ensures username == if token in old(entries) && now <= old(entries)[token].expiresAt
                          then Some(old(entries)[token].username) else None
      ensures username.Some? || token !in old(entries) ==> entries == old(entries)
      ensures username.None? ==> entries == old(entries) - {token}
      ensures username == Answer(old(entries), token, now)
      ensures (Cached(entries, now), username) == Perform(Cached(old(entries), now), Call.Get(token), ttl)
    {
      var entry := Find(token);
      username := Judge(token, entry, now);
    }

    method Set(token: Token, username: string, now: Time)
      modifies this
      ensures entries == old(entries)[token := Entry(username, now + ttl)]
      ensures Cached(entries, now) == Perform(Cached(old(entries), now), Call.Set(token, username), ttl).0
    {
      entries := entries[token := Entry(username, now + ttl)];
    }

    /** Whatever the order of iteration, exactly the expired entries go. */
    method DeleteExpired(now: Time)
      modifies this
      ensures forall token :: token in entries <==> token in old(entries) && now <= old(entries)[token].expiresAt
      ensures forall token | token in entries :: entries[token] == old(entries)[token]
      ensures Cached(entries, now) == Perform(Cached(old(entries), now), Sweep, ttl).0
    {
      var rest := entries.Keys;
      while rest != {}
        invariant rest <= old(entries).Keys
        invariant entries == map token | token in old(entries) && (token in rest || !Expired(old(entries)[token], now))
                               :: old(entries)[token]
        decreases |rest|
      {
        var token :| token in rest;
        if Expired(entries[token], now) {
          entries := entries - {token};
        }
        rest := rest - {token};
      }
    }
  }

  /**
   * CachedTokenValidator.ValidateToken: `answer` is what the token review says if it is asked, at `checked`, and
   * the clock shows `stored` when the answer has arrived.
   */
  method ValidateToken(
    cache: Cache, token: Token, checked: Time, answer: Result<string, string>, stored: Time)
    returns (result: Result<string, string>, asked: bool)
    modifies cache
    ensures asked <==> (token in old(cache.entries) ==> checked > old(cache.entries)[token].expiresAt)
    ensures result == if asked then answer else Ok(old(cache.entries)[token].username)
    ensures cache.entries ==
              if !asked then old(cache.entries)
              else if answer.Ok? then old(cache.entries)[token := Entry(answer.value, stored + cache.ttl)]
              else old(cache.entries) - {token}
  {
    var entry := cache.Find(token);
    var username := cache.Judge(token, entry, checked);
    if username.Some? {
      return Ok(username.value), false;
    }
    if answer.Err? {
      return answer, true;
    }
    cache.Set(token, answer.value, stored);
    return answer, true;
  }

  // ---------- Atomic operations ----------

  /** The same on a map that never deletes. */
  function PerformReference(c: Cached, call: Call, ttl: Time): (Cached, Option<string>) {
    match call
    case Get(token) => (c, Answer(c.entries, token, c.now))
    case Set(token, username) => (c.(entries := With(c.entries, token, username, c.now, ttl)), None)
    case Sweep => (c, None)
    case Wait(duration) => (c.(now := c.now + duration), None)
  }

  function Answers(
    step: (Cached, Call, Time) -> (Cached, Option<string>), c: Cached, calls: seq<Call>, ttl: Time): seq<Option<string>>
    decreases |calls|
  {
    if calls == [] then [] else
      var (after, answer) := step(c, calls[0], ttl);
      [answer] + Answers(step, after, calls[1..], ttl)
  }

  /** What the cache has lost can no longer be of use. */
  ghost predicate Refines(c: Cached, r: Cached) {
    && c.now == r.now
    && (forall token | token in c.entries :: token in r.entries && r.entries[token] == c.entries[token])
    && (forall token | token in r.entries && token !in c.entries :: Expired(r.entries[token], r.now))
  }

  lemma StepRefines(c: Cached, r: Cached, call: Call, ttl: Time)
    requires Refines(c, r)
    ensures Perform(c, call, ttl).1 == PerformReference(r, call, ttl).1
    ensures Refines(Perform(c, call, ttl).0, PerformReference(r, call, ttl).0)
  {
  }

  /** With atomic operations, deleting makes no difference to any answer. */
  lemma {:induction false} DeletingIsInvisible(c: Cached, r: Cached, calls: seq<Call>, ttl: Time)
    requires Refines(c, r)
    ensures Answers(Perform, c, calls, ttl) == Answers(PerformReference, r, calls, ttl)
    decreases |calls|
  {
    if calls != [] {
      StepRefines(c, r, calls[0], ttl);
      DeletingIsInvisible(Perform(c, calls[0], ttl).0, PerformReference(r, calls[0], ttl).0, calls[1..], ttl);
    }
  }
}
