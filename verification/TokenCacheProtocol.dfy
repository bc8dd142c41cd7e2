/**
 * The token cache under concurrency: any number of validations, each in its own phase, between whose steps the
 * others and the sweeper act. One step is one critical section, one reading of the clock, or one token review.
 */
module TokenCacheProtocol {
  import opened Wrappers
  import opened TokenCache

  type Client = nat

  /** Where a validation is. `at` is the position of its lookup in the history. */
  datatype Phase =
    | Looked(token: Token, entry: Option<Entry>, at: nat)
    | Dropping(token: Token)
    | Missed(token: Token)
    | Holding(token: Token, username: string)

  datatype Event =
    | LookedUp(client: Client, token: Token, found: bool, at: Time)
    | Hit(client: Client, token: Token, username: string, lookup: nat, at: Time)
    | Dropped(token: Token)
    | Validated(client: Client, token: Token, username: string)
    | Stored(client: Client, token: Token, username: string, at: Time)

  type History = seq<Event>

  datatype State = State(now: Time, entries: Entries, clients: map<Client, Phase>, history: History)

  datatype Action =
    | LookUp(client: Client, token: Token)
    | Check(client: Client)
    | Drop(client: Client)
    | Review(client: Client, answer: Option<string>)
    | Store(client: Client)
    | DeleteExpired
    | Tick(duration: nat)

  const START := State(0, map[], map[], [])

  ghost predicate Enabled(s: State, a: Action) {
    match a
    case LookUp(c, _) => c !in s.clients
    case Check(c) => c in s.clients && s.clients[c].Looked?
    case Drop(c) => c in s.clients && s.clients[c].Dropping?
    case Review(c, _) => c in s.clients && s.clients[c].Missed?
    case Store(c) => c in s.clients && s.clients[c].Holding?
    case DeleteExpired => true
    case Tick(_) => true
  }

  function Find(entries: Entries, token: Token): Option<Entry> {
    if token in entries then Some(entries[token]) else None
  }

  function CheckStep(s: State, c: Client): State
    requires c in s.clients && s.clients[c].Looked?
  {
    var p := s.clients[c];
    match p.entry
    case None => s.(clients := s.clients[c := Missed(p.token)])
    case Some(e) =>
      if Expired(e, s.now) then s.(clients := s.clients[c := Dropping(p.token)])
      else s.(clients := s.clients - {c}, history := s.history + [Hit(c, p.token, e.username, p.at, s.now)])
  }

  function Apply(s: State, a: Action, ttl: Time): State
    requires Enabled(s, a)
  {
    match a
    case LookUp(c, token) =>
      var entry := Find(s.entries, token);
      s.(clients := s.clients[c := Looked(token, entry, |s.history|)],
         history := s.history + [LookedUp(c, token, entry.Some?, s.now)])
    case Check(c) => CheckStep(s, c)
    case Drop(c) =>
      var token := s.clients[c].token;
      s.(entries := s.entries - {token}, clients := s.clients[c := Missed(token)],
         history := s.history + [Dropped(token)])
    case Review(c, answer) =>
      var token := s.clients[c].token;
      if answer.None? then s.(clients := s.clients - {c})
      else s.(clients := s.clients[c := Holding(token, answer.value)],
              history := s.history + [Validated(c, token, answer.value)])
    case Store(c) =>
      var p := s.clients[c];
      s.(entries := With(s.entries, p.token, p.username, s.now, ttl), clients := s.clients - {c},
         history := s.history + [Stored(c, p.token, p.username, s.now)])
    case DeleteExpired => s.(entries := Unexpired(s.entries, s.now))
    case Tick(duration) => s.(now := s.now + duration)
  }

  ghost predicate AllEnabled(s: State, actions: seq<Action>, ttl: Time)
    decreases |actions|
  {
    actions != [] ==> Enabled(s, actions[0]) && AllEnabled(Apply(s, actions[0], ttl), actions[1..], ttl)
  }

  ghost function Run(s: State, actions: seq<Action>, ttl: Time): State
    requires AllEnabled(s, actions, ttl)
    decreases |actions|
  {
    if actions == [] then s else Run(Apply(s, actions[0], ttl), actions[1..], ttl)
  }

  // ---------- What a history means ----------

  /** The map that never deletes, after a history. */
  function Reference(history: History, ttl: Time): Entries {
    if history == [] then map[] else
      var before, e := Reference(history[..|history| - 1], ttl), history[|history| - 1];
      if e.Stored? then With(before, e.token, e.username, e.at, ttl) else before
  }

  /** Some client deleted the token after it was last stored. */
  predicate DroppedSince(history: History, token: Token) {
    history != [] &&
    var e := history[|history| - 1];
    if e.Dropped? && e.token == token then true
    else if e.Stored? && e.token == token then false
    else DroppedSince(history[..|history| - 1], token)
  }

  lemma ReferenceOneMore(history: History, e: Event, ttl: Time)
    ensures Reference(history + [e], ttl)
            == if e.Stored? then With(Reference(history, ttl), e.token, e.username, e.at, ttl)
               else Reference(history, ttl)
  {
    assert (history + [e])[..|history|] == history;
  }

  lemma DroppedOneMore(history: History, e: Event, token: Token)
    ensures DroppedSince(history + [e], token) <==>
              (e.Dropped? && e.token == token) || (!(e.Stored? && e.token == token) && DroppedSince(history, token))
  {
    assert (history + [e])[..|history|] == history;
  }

  ghost predicate StoredAt(history: History, i: nat, token: Token, entry: Entry, ttl: Time) {
    i < |history| && history[i].Stored? && history[i].token == token
    && entry == Entry(history[i].username, history[i].at + ttl)
    && forall j | i < j < |history| && history[j].Stored? :: history[j].token != token
  }

  /** The reference holds what was stored last. */
  lemma {:induction false} ReferenceIsLastStored(history: History, token: Token, ttl: Time) returns (i: nat)
    requires token in Reference(history, ttl)
    ensures StoredAt(history, i, token, Reference(history, ttl)[token], ttl)
  {
    var before, e := history[..|history| - 1], history[|history| - 1];
    if e.Stored? && e.token == token {
      i := |history| - 1;
    } else {
      i := ReferenceIsLastStored(before, token, ttl);
    }
  }

  // ---------- The invariant ----------

  ghost predicate ReviewedBefore(history: History, n: nat, token: Token, username: string) {
    exists i, c :: 0 <= i < n && i < |history| && history[i] == Validated(c, token, username)
  }

  /** One event of a history, given what came before it. */
  ghost predicate EventOk(history: History, n: nat, ttl: Time)
    requires n < |history|
  {
    match history[n]
    case LookedUp(_, token, found, at) =>
      var r := Find(Reference(history[..n], ttl), token);
      && (found ==> r.Some? && !DroppedSince(history[..n], token))
      && (!found ==> r.None? || Expired(r.value, at) || DroppedSince(history[..n], token))
    case Hit(c, token, username, lookup, at) =>
      && lookup < n && history[lookup].LookedUp? && history[lookup].client == c && history[lookup].token == token
      && history[lookup].at <= at
      && var r := Find(Reference(history[..lookup], ttl), token);
         r.Some? && r.value.username == username && !Expired(r.value, at)
    case Stored(_, token, username, _) => ReviewedBefore(history, n, token, username)
    case _ => true
  }

  lemma StepWritesOne(s: State, a: Action, ttl: Time)
    requires Enabled(s, a)
    ensures Apply(s, a, ttl).history == s.history
            || exists e :: Apply(s, a, ttl).history == s.history + [e]
  {
  }

  function TimeOf(e: Event): Option<Time> {
    match e
    case LookedUp(_, _, _, at) => Some(at)
    case Hit(_, _, _, _, at) => Some(at)
    case Stored(_, _, _, at) => Some(at)
    case _ => None
  }

  predicate NotAfter(e: Event, now: Time) {
    TimeOf(e).Some? ==> TimeOf(e).value <= now
  }

  /** Events carry the time at which they happened, in order. */
  ghost predicate TimesOk(s: State) {
    forall j | 0 <= j < |s.history| ::
      && NotAfter(s.history[j], s.now)
      && (TimeOf(s.history[j]).Some? ==> forall i | 0 <= i < j :: NotAfter(s.history[i], TimeOf(s.history[j]).value))
  }

  lemma StepKeepsTimes(s: State, a: Action, ttl: Time)
    requires Enabled(s, a) && TimesOk(s)
    ensures TimesOk(Apply(s, a, ttl))
  {
    var t := Apply(s, a, ttl);
    StepWritesOne(s, a, ttl);
    forall j | 0 <= j < |s.history|
      ensures t.history[j] == s.history[j]
    {
    }
  }

  ghost predicate HistoryOk(s: State, ttl: Time) {
    forall n | 0 <= n < |s.history| :: EventOk(s.history, n, ttl)
  }

  ghost predicate PhaseOk(s: State, c: Client, p: Phase, ttl: Time) {
    match p
    case Looked(token, entry, at) =>
      && at < |s.history| && s.history[at].LookedUp? && s.history[at].client == c && s.history[at].token == token
      && (entry.Some? ==> Find(Reference(s.history[..at], ttl), token) == entry)
    case Holding(token, username) => ReviewedBefore(s.history, |s.history|, token, username)
    case _ => true
  }

  ghost predicate EntryOk(s: State, token: Token, ttl: Time) {
    var r := Find(Reference(s.history, ttl), token);
    if token in s.entries then r == Some(s.entries[token]) && !DroppedSince(s.history, token)
    else r.None? || Expired(r.value, s.now) || DroppedSince(s.history, token)
  }

  ghost predicate Inv(s: State, ttl: Time) {
    && HistoryOk(s, ttl)
    && TimesOk(s)
    && (forall c | c in s.clients :: PhaseOk(s, c, s.clients[c], ttl))
    && (forall token :: EntryOk(s, token, ttl))
  }

  lemma EventStays(history: History, e: Event, n: nat, ttl: Time)
    requires n < |history| && EventOk(history, n, ttl)
    ensures EventOk(history + [e], n, ttl)
  {
    var longer := history + [e];
    assert longer[..n] == history[..n] && longer[n] == history[n];
    if history[n].Hit? {
      assert longer[..history[n].lookup] == history[..history[n].lookup];
    }
    if history[n].Stored? {
      var i, c :| 0 <= i < n && i < |history| && history[i] == Validated(c, history[n].token, history[n].username);
      assert longer[i] == history[i];
    }
  }

  lemma PhaseStays(s: State, t: State, c: Client, p: Phase, ttl: Time)
    requires PhaseOk(s, c, p, ttl) && s.history <= t.history
    ensures PhaseOk(t, c, p, ttl)
  {
    if p.Looked? {
      assert t.history[..p.at] == s.history[..p.at] && t.history[p.at] == s.history[p.at];
    }
    if p.Holding? {
      var i, c' :| 0 <= i < |s.history| && s.history[i] == Validated(c', p.token, p.username);
      assert t.history[i] == s.history[i];
    }
  }

  lemma StepKeepsEntry(s: State, a: Action, token: Token, ttl: Time)
    requires Enabled(s, a) && Inv(s, ttl)
    ensures EntryOk(Apply(s, a, ttl), token, ttl)
  {
    var t := Apply(s, a, ttl);
    assert EntryOk(s, token, ttl);
    StepWritesOne(s, a, ttl);
    if t.history != s.history {
      var e :| t.history == s.history + [e];
      assert e == t.history[|s.history|];
      ReferenceOneMore(s.history, e, ttl);
      DroppedOneMore(s.history, e, token);
    }
  }

  lemma StepKeepsHistory(s: State, a: Action, ttl: Time)
    requires Enabled(s, a) && Inv(s, ttl)
    ensures HistoryOk(Apply(s, a, ttl), ttl)
  {
    var t := Apply(s, a, ttl);
    StepWritesOne(s, a, ttl);
    if t.history != s.history {
      var e :| t.history == s.history + [e];
      NewEventOk(s, a, e, ttl);
      forall n | 0 <= n < |s.history|
        ensures EventOk(t.history, n, ttl)
      {
        EventStays(s.history, e, n, ttl);
      }
    }
  }

  lemma NewEventOk(s: State, a: Action, e: Event, ttl: Time)
    requires Enabled(s, a) && Inv(s, ttl) && Apply(s, a, ttl).history == s.history + [e]
    ensures EventOk(s.history + [e], |s.history|, ttl)
  {
    var longer, n := s.history + [e], |s.history|;
    assert longer[..n] == s.history && longer[n] == e;
    match a
    case LookUp(c, token) =>
      assert EntryOk(s, token, ttl);
    case Check(c) =>
      assert PhaseOk(s, c, s.clients[c], ttl);
      var at := s.clients[c].at;
      assert longer[..at] == s.history[..at] && longer[at] == s.history[at];
    case Store(c) =>
      var p := s.clients[c];
      assert PhaseOk(s, c, p, ttl);
      var i, c' :| 0 <= i < |s.history| && s.history[i] == Validated(c', p.token, p.username);
      assert longer[i] == s.history[i];
    case _ =>
  }

  lemma StepKeepsPhases(s: State, a: Action, c: Client, ttl: Time)
    requires Enabled(s, a) && Inv(s, ttl) && c in Apply(s, a, ttl).clients
    ensures PhaseOk(Apply(s, a, ttl), c, Apply(s, a, ttl).clients[c], ttl)
  {
    var t := Apply(s, a, ttl);
    StepWritesOne(s, a, ttl);
    assert s.history <= t.history;
    if c in s.clients && t.clients[c] == s.clients[c] {
      PhaseStays(s, t, c, s.clients[c], ttl);
    } else {
      match a
      case LookUp(_, token) =>
        assert t.history[..|s.history|] == s.history;
        assert EntryOk(s, token, ttl);
      case Review(_, answer) =>
        assert t.history[|s.history|] == Validated(c, s.clients[c].token, answer.value);
      case _ =>
    }
  }

  lemma StepKeepsInv(s: State, a: Action, ttl: Time)
    requires Enabled(s, a) && Inv(s, ttl)
    ensures Inv(Apply(s, a, ttl), ttl)
  {
    var t := Apply(s, a, ttl);
    StepKeepsHistory(s, a, ttl);
    StepKeepsTimes(s, a, ttl);
    forall c | c in t.clients
      ensures PhaseOk(t, c, t.clients[c], ttl)
    {
      StepKeepsPhases(s, a, c, ttl);
    }
    forall token
      ensures EntryOk(t, token, ttl)
    {
      StepKeepsEntry(s, a, token, ttl);
    }
  }

  lemma {:induction false} RunKeepsInv(s: State, actions: seq<Action>, ttl: Time)
    requires Inv(s, ttl) && AllEnabled(s, actions, ttl)
    ensures Inv(Run(s, actions, ttl), ttl)
    decreases |actions|
  {
    if actions != [] {
      StepKeepsInv(s, actions[0], ttl);
      RunKeepsInv(Apply(s, actions[0], ttl), actions[1..], ttl);
    }
  }

  // ---------- Theorems ----------

  ghost predicate Happened(actions: seq<Action>, ttl: Time, history: History) {
    AllEnabled(START, actions, ttl) && Run(START, actions, ttl).history == history
  }

  /**
   * A hit answers with the username that was stored last for the token before its lookup; that username came from
   * a review of this token, and was stored at most ttl before the expiry check, equality allowed.
   */
  lemma HitsAreValidated(actions: seq<Action>, ttl: Time, history: History, n: nat) returns (i: nat, k: nat)
    requires Happened(actions, ttl, history) && n < |history| && history[n].Hit?
    ensures var hit := history[n];
            && k < i < hit.lookup < n
            && history[k].Validated? && history[k].token == hit.token && history[k].username == hit.username
            && history[i].Stored? && history[i].token == hit.token && history[i].username == hit.username
            && (forall j | i < j < hit.lookup && history[j].Stored? :: history[j].token != hit.token)
            && hit.at - ttl <= history[i].at <= hit.at
  {
    var s, hit := Run(START, actions, ttl), history[n];
    RunKeepsInv(START, actions, ttl);
    assert EventOk(history, n, ttl);
    var before := history[..hit.lookup];
    i := ReferenceIsLastStored(before, hit.token, ttl);
    assert before[i] == history[i];
    assert EventOk(history, i, ttl) && NotAfter(history[i], history[n].at);
    var c;
    k, c :| 0 <= k < i && k < |history| && history[k] == Validated(c, hit.token, hit.username);
  }

  /**
   * A check answers exactly what it should: a lookup that found an entry found the one stored last, and the client
   * is answered with its username up to and including ttl after that store; later it goes on to delete.
   */
  lemma ChecksExactly(actions: seq<Action>, ttl: Time, s: State, c: Client) returns (i: nat)
    requires AllEnabled(START, actions, ttl) && s == Run(START, actions, ttl)
    requires c in s.clients && s.clients[c].Looked? && s.clients[c].entry.Some?
    ensures LastStoredIn(s.history, 0, s.clients[c].at, s.clients[c].token, i)
    ensures Apply(s, Check(c), ttl).entries == s.entries
    ensures s.now <= s.history[i].at + ttl ==>
              && c !in Apply(s, Check(c), ttl).clients
              && Apply(s, Check(c), ttl).history
                 == s.history + [Hit(c, s.clients[c].token, s.history[i].username, s.clients[c].at, s.now)]
    ensures s.now > s.history[i].at + ttl ==>
              && Apply(s, Check(c), ttl).clients == s.clients[c := Dropping(s.clients[c].token)]
              && Apply(s, Check(c), ttl).history == s.history
  {
    RunKeepsInv(START, actions, ttl);
    var p := s.clients[c];
    assert PhaseOk(s, c, p, ttl);
    i := ReferenceIsLastStored(s.history[..p.at], p.token, ttl);
  }

  /** ValidateToken returns a username: one it found, or that of its own review, which it has just stored. */
  predicate Answers(history: History, n: nat) {
    n < |history| && (history[n].Hit? || history[n].Stored?)
  }

  /** The place in the history where the answer was fixed: at the lookup, or once its own store was made. */
  function Fixed(history: History, n: nat): nat
    requires Answers(history, n)
  {
    if history[n].Hit? then history[n].lookup else n + 1
  }

  /** Event i is the last store of the token from one place to another. */
  ghost predicate LastStoredIn(history: History, from: nat, to: nat, token: Token, i: nat) {
    && from <= i < to <= |history| && history[i].Stored? && history[i].token == token
    && forall j | i < j < to && history[j].Stored? :: history[j].token != token
  }

  /** Every answer is the username that was stored last for the token before the place where it was fixed. */
  lemma AnswersAreStored(actions: seq<Action>, ttl: Time, history: History, n: nat) returns (i: nat, k: nat)
    requires Happened(actions, ttl, history) && Answers(history, n)
    ensures Fixed(history, n) <= |history|
    ensures LastStoredIn(history, 0, Fixed(history, n), history[n].token, i)
    ensures history[i].username == history[n].username
    ensures k < i && history[k].Validated?
            && history[k].token == history[n].token && history[k].username == history[n].username
  {
    if history[n].Hit? {
      i, k := HitsAreValidated(actions, ttl, history, n);
    } else {
      RunKeepsInv(START, actions, ttl);
      assert EventOk(history, n, ttl);
      i := n;
      var c;
      k, c :| 0 <= k < n && k < |history| && history[k] == Validated(c, history[n].token, history[n].username);
    }
  }

  /**
   * The documented promise, exactly: two answers on one token, found or reviewed, differ if and only if what was
   * stored last for it between the places where they were fixed carries another username.
   */
  lemma AnswersAgree(actions: seq<Action>, ttl: Time, history: History, n: nat, m: nat)
    requires Happened(actions, ttl, history) && Answers(history, n) && Answers(history, m)
    requires history[n].token == history[m].token && Fixed(history, n) <= Fixed(history, m)
    ensures history[n].username != history[m].username <==>
              exists i: nat :: LastStoredIn(history, Fixed(history, n), Fixed(history, m), history[n].token, i)
                               && history[i].username != history[n].username
  {
    var from, to, token := Fixed(history, n), Fixed(history, m), history[n].token;
    var i, _ := AnswersAreStored(actions, ttl, history, n);
    var j, _ := AnswersAreStored(actions, ttl, history, m);
    if from <= j {
      assert LastStoredIn(history, from, to, token, j);
    }
  }

  /** In particular for two hits. */
  lemma HitsAgree(actions: seq<Action>, ttl: Time, history: History, n: nat, m: nat)
    requires Happened(actions, ttl, history) && n < |history| && m < |history|
    requires history[n].Hit? && history[m].Hit? && history[n].token == history[m].token
    requires history[n].lookup <= history[m].lookup
    ensures history[n].username != history[m].username <==>
              exists i: nat :: LastStoredIn(history, history[n].lookup, history[m].lookup, history[n].token, i)
                               && history[i].username != history[n].username
  {
    AnswersAgree(actions, ttl, history, n, m);
  }

  /** All reviews of the token that a history records answered alike. */
  ghost predicate ReviewsAlike(history: History, token: Token, username: string) {
    forall i | 0 <= i < |history| && history[i].Validated? && history[i].token == token ::
      history[i].username == username
  }

  /** So the promise is kept whenever the reviews of a token answer alike: then so does every answer. */
  lemma AlikeReviewsKeepPromise(actions: seq<Action>, ttl: Time, history: History, n: nat, username: string)
    requires Happened(actions, ttl, history) && Answers(history, n)
    requires ReviewsAlike(history, history[n].token, username)
    ensures history[n].username == username
  {
    var _, k := AnswersAreStored(actions, ttl, history, n);
  }

  /**
   * A token that was never stored is never found. One whose last store has not expired is found if and only if no
   * client has deleted it since, having seen an older, expired entry.
   */
  lemma LookupsExactly(actions: seq<Action>, ttl: Time, history: History, n: nat)
    requires Happened(actions, ttl, history) && n < |history| && history[n].LookedUp?
    ensures var r := Find(Reference(history[..n], ttl), history[n].token);
            && (r.None? ==> !history[n].found)
            && (r.Some? && !Expired(r.value, history[n].at) ==>
                  (history[n].found <==> !DroppedSince(history[..n], history[n].token)))
  {
    RunKeepsInv(START, actions, ttl);
    assert EventOk(history, n, ttl);
  }

  /** The answer of a hit is what the map that never deletes would have answered at the lookup. */
  lemma HitsLinearizeAtLookup(actions: seq<Action>, ttl: Time, history: History, n: nat)
    requires Happened(actions, ttl, history) && n < |history| && history[n].Hit?
    ensures var hit := history[n];
            && hit.lookup < n && history[hit.lookup].LookedUp? && history[hit.lookup].client == hit.client
            && Answer(Reference(history[..hit.lookup], ttl), hit.token, history[hit.lookup].at) == Some(hit.username)
  {
    RunKeepsInv(START, actions, ttl);
    assert EventOk(history, n, ttl);
  }

  lemma {:induction false} RunAppend(s: State, a: seq<Action>, b: seq<Action>, ttl: Time)
    requires AllEnabled(s, a, ttl) && AllEnabled(Run(s, a, ttl), b, ttl)
    ensures AllEnabled(s, a + b, ttl) && Run(s, a + b, ttl) == Run(Run(s, a, ttl), b, ttl)
    decreases |a|
  {
    if a == [] {
      assert a + b == b;
    } else {
      RunAppend(Apply(s, a[0], ttl), a[1..], b, ttl);
      assert (a + b)[0] == a[0] && (a + b)[1..] == a[1..] + b;
    }
  }

  lemma RunOne(s: State, a: Action, ttl: Time)
    requires Enabled(s, a)
    ensures AllEnabled(s, [a], ttl) && Run(s, [a], ttl) == Apply(s, a, ttl)
  {
    assert [a][1..] == [];
  }

  ghost predicate Reachable(s: State, ttl: Time) {
    exists actions :: AllEnabled(START, actions, ttl) && Run(START, actions, ttl) == s
  }

  lemma StepReachable(s: State, a: Action, ttl: Time)
    requires Reachable(s, ttl) && Enabled(s, a)
    ensures Reachable(Apply(s, a, ttl), ttl)
  {
    var actions :| AllEnabled(START, actions, ttl) && Run(START, actions, ttl) == s;
    RunOne(s, a, ttl);
    RunAppend(START, actions, [a], ttl);
  }

  lemma StartMiss(s: State, c: Client, token: Token, ttl: Time) returns (t: State)
    requires Reachable(s, ttl) && c !in s.clients && token !in s.entries
    ensures Reachable(t, ttl) && t.clients == s.clients[c := Missed(token)] && t.entries == s.entries && t.now == s.now
    ensures t.history == s.history + [LookedUp(c, token, false, s.now)]
  {
    StepReachable(s, LookUp(c, token), ttl);
    t := Apply(s, LookUp(c, token), ttl);
    StepReachable(t, Check(c), ttl);
    t := Apply(t, Check(c), ttl);
  }

  /** A client that has missed gets its answer and stores it over whatever is there. */
  lemma FinishMiss(s: State, c: Client, token: Token, username: string, ttl: Time) returns (t: State)
    requires Reachable(s, ttl) && c in s.clients && s.clients[c] == Missed(token)
    ensures Reachable(t, ttl) && t.clients == s.clients - {c} && t.now == s.now
    ensures t.entries == With(s.entries, token, username, s.now, ttl)
    ensures s.history <= t.history
  {
    StepReachable(s, Review(c, Some(username)), ttl);
    t := Apply(s, Review(c, Some(username)), ttl);
    StepReachable(t, Store(c), ttl);
    t := Apply(t, Store(c), ttl);
    assert t.clients == s.clients - {c};
  }

  /** A whole validation by one client, from a miss to the stored answer. */
  lemma ValidateFresh(s: State, c: Client, token: Token, username: string, ttl: Time) returns (t: State)
    requires Reachable(s, ttl) && c !in s.clients && token !in s.entries
    ensures Reachable(t, ttl) && t.clients == s.clients && t.now == s.now
    ensures t.entries == With(s.entries, token, username, s.now, ttl)
  {
    t := StartMiss(s, c, token, ttl);
    t := FinishMiss(t, c, token, username, ttl);
    assert t.clients == s.clients;
  }

  /** One client looks the token up and finds a good entry. */
  lemma HitFresh(s: State, c: Client, token: Token, username: string, ttl: Time) returns (t: State)
    requires Reachable(s, ttl) && c !in s.clients && Answer(s.entries, token, s.now) == Some(username)
    ensures Reachable(t, ttl) && t.clients == s.clients && t.entries == s.entries && t.now == s.now
    ensures t.history == s.history + [LookedUp(c, token, true, s.now), Hit(c, token, username, |s.history|, s.now)]
  {
    StepReachable(s, LookUp(c, token), ttl);
    t := Apply(s, LookUp(c, token), ttl);
    StepReachable(t, Check(c), ttl);
    t := Apply(t, Check(c), ttl);
    assert t.clients == s.clients;
  }

  /** A client sees that the entry has expired; before it deletes it, the sweeper does. */
  lemma SeeExpired(s: State, c: Client, token: Token, ttl: Time) returns (t: State)
    requires Reachable(s, ttl) && c !in s.clients && token in s.entries && Expired(s.entries[token], s.now)
    ensures Reachable(t, ttl) && t.clients == s.clients[c := Dropping(token)] && token !in t.entries && t.now == s.now
  {
    StepReachable(s, LookUp(c, token), ttl);
    t := Apply(s, LookUp(c, token), ttl);
    StepReachable(t, Check(c), ttl);
    t := Apply(t, Check(c), ttl);
    StepReachable(t, DeleteExpired, ttl);
    t := Apply(t, DeleteExpired, ttl);
  }

  /**
   * Deleting is lazy and does not look again: client 1 sees an expired entry, the sweeper removes it, client 2
   * stores a fresh one, and then client 1 deletes that. For every ttl.
   */
  lemma FreshEntryCanBeDropped(ttl: nat, token: Token, username: string) returns (before: State, after: State)
    ensures Reachable(before, ttl) && before.clients == map[1 := Dropping(token)]
    ensures Enabled(before, Drop(1)) && after == Apply(before, Drop(1), ttl)
    ensures Answer(before.entries, token, before.now) == Some(username)
    ensures Answer(after.entries, token, after.now) == None
  {
    assert AllEnabled(START, [], ttl) && Run(START, [], ttl) == START;
    var s := ValidateFresh(START, 2, token, username, ttl);
    StepReachable(s, Tick(ttl + 1), ttl);
    s := SeeExpired(Apply(s, Tick(ttl + 1), ttl), 1, token, ttl);
    before := ValidateFresh(s, 2, token, username, ttl);
    after := Apply(before, Drop(1), ttl);
  }

  /**
   * The promise can be broken, for every TTL, within one instant: clients 1 and 2 both miss, client 2 stores one
   * username and client 3 hits it, client 1 stores another and client 4 hits that.
   */
  lemma PromiseCanBeBroken(ttl: nat, token: Token, u: string, v: string)
    returns (actions: seq<Action>, history: History, n: nat, m: nat)
    requires u != v
    ensures Happened(actions, ttl, history) && n < m < |history| && history[n].Hit? && history[m].Hit?
    ensures history[n].token == history[m].token == token && history[n].at == history[m].at
    ensures history[n].username == u && history[m].username == v
  {
    assert AllEnabled(START, [], ttl) && Run(START, [], ttl) == START;
    var s := StartMiss(START, 1, token, ttl);
    s := StartMiss(s, 2, token, ttl);
    s := FinishMiss(s, 2, token, u, ttl);
    var first := HitFresh(s, 3, token, u, ttl);
    s := FinishMiss(first, 1, token, v, ttl);
    var last := HitFresh(s, 4, token, v, ttl);
    n, m, history := |first.history| - 1, |last.history| - 1, last.history;
    assert first.history[n] == last.history[n];
    actions :| AllEnabled(START, actions, ttl) && Run(START, actions, ttl) == last;
  }

  /** A client that has missed is answered with its review, which ends the history. */
  lemma AnswerMiss(s: State, c: Client, token: Token, username: string, ttl: Time) returns (t: State)
    requires Reachable(s, ttl) && c in s.clients && s.clients[c] == Missed(token)
    ensures Reachable(t, ttl)
    ensures t.history == s.history + [Validated(c, token, username), Stored(c, token, username, s.now)]
  {
    StepReachable(s, Review(c, Some(username)), ttl);
    t := Apply(s, Review(c, Some(username)), ttl);
    StepReachable(t, Store(c), ttl);
    t := Apply(t, Store(c), ttl);
  }

  lemma DropEntry(s: State, c: Client, token: Token, ttl: Time) returns (t: State)
    requires Reachable(s, ttl) && c in s.clients && s.clients[c] == Dropping(token)
    ensures Reachable(t, ttl) && t.clients == s.clients[c := Missed(token)] && token !in t.entries && t.now == s.now
    ensures t.history == s.history + [Dropped(token)]
  {
    StepReachable(s, Drop(c), ttl);
    t := Apply(s, Drop(c), ttl);
  }

  /**
   * It breaks without any two reviews overlapping, too: client 3 hits a fresh entry, client 1 deletes that entry,
   * having seen the expired one before it, and at the same instant client 4 misses and its review answers otherwise.
   */
  lemma PromiseCanBeBrokenByDeletion(ttl: nat, token: Token, u: string, v: string)
    returns (actions: seq<Action>, history: History, n: nat, m: nat)
    requires u != v
    ensures Happened(actions, ttl, history) && n < m < |history| && history[n].Hit? && history[m].Stored?
    ensures history[n].token == history[m].token == token && history[n].at == history[m].at
    ensures history[n].username == u && history[m].username == v
    ensures forall i | n < i < |history| && history[i].Validated? :: i == m - 1
  {
    var before, _ := FreshEntryCanBeDropped(ttl, token, u);
    var first := HitFresh(before, 3, token, u, ttl);
    n := |first.history| - 1;
    var s := DropEntry(first, 1, token, ttl);
    s := StartMiss(s, 4, token, ttl);
    var last := AnswerMiss(s, 4, token, v, ttl);
    m, history := |last.history| - 1, last.history;
    assert history[n] == first.history[n];
    actions :| AllEnabled(START, actions, ttl) && Run(START, actions, ttl) == last;
  }

  // ---------- Progress ----------

  /** A client that has missed can end with an error: nothing is stored then, and nothing recorded. */
  lemma MissCanFail(s: State, c: Client, ttl: Time) returns (t: State)
    requires Reachable(s, ttl) && c in s.clients && s.clients[c].Missed?
    ensures Reachable(t, ttl) && t == s.(clients := s.clients - {c})
  {
    StepReachable(s, Review(c, None), ttl);
    t := Apply(s, Review(c, None), ttl);
  }

  /** From wherever it stands, every validation can still end, and no other one is touched. */
  lemma EveryValidationCanEnd(s: State, c: Client, ttl: Time) returns (t: State)
    requires Reachable(s, ttl) && c in s.clients
    ensures Reachable(t, ttl) && t.clients == s.clients - {c} && t.now == s.now && s.history <= t.history
  {
    t := s;
    if t.clients[c].Holding? {
      StepReachable(t, Store(c), ttl);
      t := Apply(t, Store(c), ttl);
      return;
    }
    if t.clients[c].Looked? {
      StepReachable(t, Check(c), ttl);
      t := Apply(t, Check(c), ttl);
    }
    if c in t.clients && t.clients[c].Dropping? {
      StepReachable(t, Drop(c), ttl);
      t := Apply(t, Drop(c), ttl);
    }
    if c in t.clients {
      t := MissCanFail(t, c, ttl);
    }
  }
}
