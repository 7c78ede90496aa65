/** The daemon's live attestation tickets: a map by token and a queue in expiry order
    (`Live` and `Tickets` in crates/jkb-api/src/rbac.rs). */
module TicketStore {
  import opened Wrappers

  /** Milliseconds on the daemon's monotonic clock. */
  const TICKET_BACKSTOP: int := 600_000
  const MAX_LIVE_TICKETS: nat := 4096
  const MAX_SESSION_TICKETS: nat := 256
  const QUEUE_SLACK: nat := 64

  type Token = string

  datatype Ticket = Ticket(
    session: string, agentId: Option<string>, agentType: Option<string>, toolUse: string,
    mintedBy: int, mintedAt: int)

  datatype Entry = Entry(at: int, token: Token)

  datatype Busy = DaemonFull | SessionFull

  predicate Young(at: int, now: int) {
    now - at < TICKET_BACKSTOP
  }

  // ---------------------------------------------------------------------------------------
  // The simple definition: what was minted and not released, and is young
  // ---------------------------------------------------------------------------------------

  function LiveAt(outstanding: map<Token, Ticket>, now: int): map<Token, Ticket> {
    map t | t in outstanding && Young(outstanding[t].mintedAt, now) :: outstanding[t]
  }

  /** What was minted, not released, and expired less than `skew` ago or not at all. */
  function LiveWithin(outstanding: map<Token, Ticket>, now: int, skew: nat): map<Token, Ticket> {
    map t | t in outstanding && Young(outstanding[t].mintedAt, now - skew) :: outstanding[t]
  }

  function OfSession(tickets: map<Token, Ticket>, session: string): set<Token> {
    set t | t in tickets && tickets[t].session == session
  }

  /** What a release names: one tool call, else one subagent, else the whole session. */
  predicate Hit(t: Ticket, session: string, agentId: Option<string>, toolUse: Option<string>) {
    && t.session == session
    && (if toolUse.Some? then t.toolUse == toolUse.value
        else agentId.Some? ==> t.agentId == agentId)
  }

  function Released(
    tickets: map<Token, Ticket>, session: string, agentId: Option<string>, toolUse: Option<string>)
    : map<Token, Ticket>
  {
    map t | t in tickets && !Hit(tickets[t], session, agentId, toolUse) :: tickets[t]
  }

  /** Ages and sessions, over the tickets. */
  lemma LiveExactly(tickets: map<Token, Ticket>, now: int, skew: nat, session: string, t: Token)
    ensures t in LiveAt(tickets, now) <==> t in tickets && now - tickets[t].mintedAt < TICKET_BACKSTOP
    ensures t in LiveWithin(tickets, now, skew) <==> t in tickets && now - tickets[t].mintedAt < TICKET_BACKSTOP + skew
    ensures t in LiveAt(tickets, now) ==> LiveAt(tickets, now)[t] == tickets[t]
    ensures t in OfSession(tickets, session) <==> t in tickets && tickets[t].session == session
  {
  }

  // ---------------------------------------------------------------------------------------
  // The queue
  // ---------------------------------------------------------------------------------------

  /** No entry is queued behind one more than `skew` later than itself. */
  ghost predicate InOrder(q: seq<Entry>, skew: nat) {
    forall i, j :: 0 <= i < j < |q| ==> q[i].at <= q[j].at + skew
  }

  ghost predicate DistinctTokens(q: seq<Entry>) {
    forall i, j :: 0 <= i < j < |q| ==> q[i].token != q[j].token
  }

  ghost predicate Queued(q: seq<Entry>, tickets: map<Token, Ticket>) {
    && DistinctTokens(q)
    && (forall t :: t in tickets ==> Entry(tickets[t].mintedAt, t) in q)
    && (forall e :: e in q && e.token in tickets ==> e.at == tickets[e.token].mintedAt)
  }

  /** How many entries an expiry pops: the longest expired prefix. */
  function ExpiredPrefix(q: seq<Entry>, now: int): (k: nat)
    ensures k <= |q|
    ensures forall i :: 0 <= i < k ==> !Young(q[i].at, now)
    ensures k < |q| ==> Young(q[k].at, now)
  {
    if q == [] || Young(q[0].at, now) then 0 else 1 + ExpiredPrefix(q[1..], now)
  }

  function Tokens(q: seq<Entry>): set<Token> {
    set e | e in q :: e.token
  }

  /** What popping the expired prefix leaves, whatever order the queue is in: a token survives exactly
      when it or something queued before it is young. */
  lemma SurvivesExactly(q: seq<Entry>, tickets: map<Token, Ticket>, now: int, i: nat)
    requires Queued(q, tickets)
    requires i < |q|
    ensures q[i].token !in Tokens(q[..ExpiredPrefix(q, now)]) <==> exists j :: 0 <= j <= i && Young(q[j].at, now)
  {
    var k := ExpiredPrefix(q, now);
    if k <= i {
      assert Young(q[k].at, now);
      forall e | e in q[..k] ensures e.token != q[i].token {
        var j :| 0 <= j < k && q[j] == e;
      }
    } else {
      assert q[..k][i] == q[i];
    }
  }

  /** What an expiry leaves: every young ticket, and none that expired `skew` ago or longer. */
  lemma ExpiryIsNearlyExact(q: seq<Entry>, tickets: map<Token, Ticket>, now: int, skew: nat)
    requires Queued(q, tickets) && InOrder(q, skew)
    ensures var left := tickets - Tokens(q[..ExpiredPrefix(q, now)]);
            Subset(LiveAt(tickets, now), left) && Subset(left, LiveWithin(tickets, now, skew))
  {
    hide Tokens, ExpiredPrefix, Queued, InOrder;
    forall t | t in tickets
      ensures Young(tickets[t].mintedAt, now) ==> t !in Tokens(q[..ExpiredPrefix(q, now)])
      ensures t !in Tokens(q[..ExpiredPrefix(q, now)]) ==> Young(tickets[t].mintedAt, now - skew)
    {
      SurvivesByAge(q, tickets, now, skew, t);
    }
  }

  lemma SurvivesByAge(q: seq<Entry>, tickets: map<Token, Ticket>, now: int, skew: nat, t: Token)
    requires Queued(q, tickets) && InOrder(q, skew) && t in tickets
    ensures Young(tickets[t].mintedAt, now) ==> t !in Tokens(q[..ExpiredPrefix(q, now)])
    ensures t !in Tokens(q[..ExpiredPrefix(q, now)]) ==> Young(tickets[t].mintedAt, now - skew)
  {
    hide Tokens, ExpiredPrefix;
    var i :| 0 <= i < |q| && q[i] == Entry(tickets[t].mintedAt, t);
    SurvivesExactly(q, tickets, now, i);
  }

  /** In a sorted queue an expiry leaves exactly the young tickets. */
  lemma SortedExpiryIsExact(q: seq<Entry>, tickets: map<Token, Ticket>, now: int)
    requires Queued(q, tickets) && InOrder(q, 0)
    ensures tickets - Tokens(q[..ExpiredPrefix(q, now)]) == LiveAt(tickets, now)
  {
    ExpiryIsNearlyExact(q, tickets, now, 0);
    SubsetBothWays(tickets - Tokens(q[..ExpiredPrefix(q, now)]), LiveAt(tickets, now));
  }

  lemma SubsetBothWays(a: map<Token, Ticket>, b: map<Token, Ticket>)
    requires Subset(a, b) && Subset(b, a)
    ensures a == b
  {
  }

  /** And only in one: a queue of live tickets expires exactly at every moment if and only if it is sorted. */
  lemma ExactAtEveryMomentIffSorted(q: seq<Entry>, tickets: map<Token, Ticket>)
    requires Queued(q, tickets) && Tokens(q) <= tickets.Keys
    ensures (forall now :: tickets - Tokens(q[..ExpiredPrefix(q, now)]) == LiveAt(tickets, now)) <==> InOrder(q, 0)
  {
    if InOrder(q, 0) {
      forall now
        ensures tickets - Tokens(q[..ExpiredPrefix(q, now)]) == LiveAt(tickets, now)
      {
        SortedExpiryIsExact(q, tickets, now);
      }
    } else {
      var i, j :| 0 <= i < j < |q| && q[i].at > q[j].at;
      var now := q[j].at + TICKET_BACKSTOP;
      assert q[j].token in Tokens(q);
      assert Young(q[i].at, now) && !Young(q[j].at, now);
      SurvivesExactly(q, tickets, now, j);
      assert q[j].token in tickets - Tokens(q[..ExpiredPrefix(q, now)]) && q[j].token !in LiveAt(tickets, now);
    }
  }

  /** Out of order, an expired ticket queued behind a young one outlives its backstop: the order of the
      pushes is what the store rests on. */
  lemma UnsortedQueueKeepsAnExpiredTicket()
    ensures exists q: seq<Entry>, tickets: map<Token, Ticket>, now: int ::
              && Queued(q, tickets)
              && tickets - Tokens(q[..ExpiredPrefix(q, now)]) != LiveAt(tickets, now)
  {
    var stale := Ticket("s", None, None, "u", 0, 0);
    var recent := stale.(mintedAt := 1);
    var q := [Entry(1, "b"), Entry(0, "a")];
    var tickets: map<Token, Ticket> := map["a" := stale, "b" := recent];
    var now := TICKET_BACKSTOP;
    assert Young(q[0].at, now);
    assert ExpiredPrefix(q, now) == 0;
    assert q[1] == Entry(tickets["a"].mintedAt, "a") && q[0] == Entry(tickets["b"].mintedAt, "b");
    assert Queued(q, tickets);
    assert "a" in tickets - Tokens(q[..0]) && "a" !in LiveAt(tickets, now);
  }

  function Retain(q: seq<Entry>, tickets: map<Token, Ticket>): seq<Entry> {
    if q == [] then []
    else (if q[0].token in tickets then [q[0]] else []) + Retain(q[1..], tickets)
  }

  lemma {:induction false} RetainedMembers(q: seq<Entry>, tickets: map<Token, Ticket>)
    ensures forall e :: e in Retain(q, tickets) <==> e in q && e.token in tickets
  {
    if q != [] {
      RetainedMembers(q[1..], tickets);
      assert q == [q[0]] + q[1..];
    }
  }

  lemma {:induction false} RetainKeeps(q: seq<Entry>, tickets: map<Token, Ticket>)
    ensures forall e :: e in Retain(q, tickets) <==> e in q && e.token in tickets
    ensures forall skew :: InOrder(q, skew) ==> InOrder(Retain(q, tickets), skew)
    ensures DistinctTokens(q) ==> DistinctTokens(Retain(q, tickets))
  {
    RetainedMembers(q, tickets);
    if q != [] {
      RetainKeeps(q[1..], tickets);
      RetainedMembers(q[1..], tickets);
      PrependKeeps(q, Retain(q[1..], tickets));
      assert [] + Retain(q[1..], tickets) == Retain(q[1..], tickets);
    }
  }

  lemma PrependKeeps(q: seq<Entry>, rest: seq<Entry>)
    requires q != [] && forall e :: e in rest ==> e in q[1..]
    ensures forall skew :: InOrder(q, skew) && InOrder(rest, skew) ==> InOrder([q[0]] + rest, skew)
    ensures DistinctTokens(q) && DistinctTokens(rest) ==> DistinctTokens([q[0]] + rest)
    ensures forall skew :: InOrder(q, skew) ==> InOrder(q[1..], skew)
    ensures DistinctTokens(q) ==> DistinctTokens(q[1..])
  {
    forall i | 0 <= i < |rest|
      ensures forall skew :: InOrder(q, skew) ==> q[0].at <= rest[i].at + skew
      ensures DistinctTokens(q) ==> q[0].token != rest[i].token
    {
      assert rest[i] in rest;
      var j :| 0 <= j < |q[1..]| && q[1..][j] == rest[i];
      assert q[j + 1] == rest[i];
    }
  }

  /** A queue of distinct live tokens is no longer than the live set. */
  lemma {:induction false} DistinctBound(q: seq<Entry>, keys: set<Token>)
    requires DistinctTokens(q)
    requires forall e :: e in q ==> e.token in keys
    ensures |q| <= |keys|
  {
    if q != [] {
      var rest := q[1..];
      forall e | e in rest ensures e.token in keys - {q[0].token} {
        var j :| 0 <= j < |rest| && rest[j] == e;
        assert q[j + 1] == e;
      }
      DistinctBound(rest, keys - {q[0].token});
      assert q[0] in q;
    }
  }

  // ---------------------------------------------------------------------------------------
  // The store
  // ---------------------------------------------------------------------------------------

  /** The store's invariant: the queue holds every live token once, in time order but for `skew`; what is live was
      minted and not released; what was minted, not released and is not live has expired; and the caps hold. */
  ghost predicate Consistent(
    byToken: map<Token, Ticket>, expiry: seq<Entry>, outstanding: map<Token, Ticket>, used: set<Token>, clock: int,
    skew: nat)
  {
    && Queued(expiry, byToken)
    && InOrder(expiry, skew)
    && Tokens(expiry) <= used && outstanding.Keys <= used
    && Subset(byToken, outstanding)
    && (forall t :: t in outstanding && t !in byToken ==> !Young(outstanding[t].mintedAt, clock))
    && WithinCaps(byToken)
  }

  /** How late an entry of time `at` is: how far behind the latest one queued. */
  function Lateness(q: seq<Entry>, at: int): (late: nat)
    ensures forall e :: e in q ==> e.at <= at + late
    ensures (forall e :: e in q ==> e.at <= at) ==> late == 0
  {
    if q == [] then 0
    else
      assert forall e :: e in q[1..] ==> e in q;
      var rest := Lateness(q[1..], at);
      if q[0].at - at > rest then q[0].at - at else rest
  }

  function Max(a: nat, b: nat): nat {
    if a < b then b else a
  }

  ghost predicate Subset(small: map<Token, Ticket>, big: map<Token, Ticket>) {
    forall t :: t in small ==> t in big && small[t] == big[t]
  }

  ghost predicate WithinCaps(tickets: map<Token, Ticket>) {
    && |tickets| <= MAX_LIVE_TICKETS
    && forall s :: |OfSession(tickets, s)| <= MAX_SESSION_TICKETS
  }

  lemma NothingPopped(q: seq<Entry>, now: int)
    ensures Tokens(q[..0]) == {} && q[0..] == q
  {
  }

  lemma PopsOne(q: seq<Entry>, k: nat, now: int)
    requires k < |q| && !Young(q[k].at, now)
    ensures Tokens(q[..k + 1]) == Tokens(q[..k]) + {q[k].token}
    ensures q[k..][1..] == q[k + 1..] && ExpiredPrefix(q[k..], now) == 1 + ExpiredPrefix(q[k + 1..], now)
  {
    assert q[..k + 1] == q[..k] + [q[k]];
    assert q[k..][1..] == q[k + 1..];
  }

  class Live {
    var byToken: map<Token, Ticket>
    var expiry: seq<Entry>

    /** Every ticket minted and not released, the tokens ever minted, the last time a lookup read, and how late a mint
        has come at worst: its time is read before the lock is taken. */
    ghost var outstanding: map<Token, Ticket>
    ghost var used: set<Token>
    ghost var clock: int
    ghost var skew: nat

    ghost predicate Valid()
      reads this
    {
      Consistent(byToken, expiry, outstanding, used, clock, skew)
    }

    constructor ()
      ensures Valid() && outstanding == map[] && used == {} && clock == 0 && skew == 0
    {
      byToken, expiry := map[], [];
      outstanding, used, clock, skew := map[], {}, 0, 0;
    }

    /** Pop the expired front of the queue, and drop each ticket popped. */
    method PopExpired(now: int)
      modifies `byToken, `expiry
      ensures expiry == old(expiry)[ExpiredPrefix(old(expiry), now)..]
      ensures byToken == old(byToken) - Tokens(old(expiry)[..ExpiredPrefix(old(expiry), now)])
    {
      hide ExpiredPrefix, Tokens;
      ghost var q, tickets, k := expiry, byToken, 0;
      NothingPopped(q, now);
      while expiry != [] && !Young(expiry[0].at, now)
        invariant 0 <= k <= |q| && expiry == q[k..] && byToken == tickets - Tokens(q[..k])
        invariant k + ExpiredPrefix(q[k..], now) == ExpiredPrefix(q, now)
        decreases |expiry|
      {
        PopsOne(q, k, now);
        byToken := byToken - {expiry[0].token};
        expiry := expiry[1..];
        k := k + 1;
      }
    }

    /** Drop what has expired by `now`, and the queue entries of tickets already released once they are
        most of the queue. */
    method Expire(now: int)
      requires Valid() && clock <= now
      modifies this
      ensures Valid() && clock == now && skew == old(skew)
      ensures outstanding == old(outstanding) && used == old(used)
      ensures Subset(LiveAt(outstanding, now), byToken) && Subset(byToken, LiveWithin(outstanding, now, skew))
      ensures skew == 0 ==> byToken == LiveAt(outstanding, now)
      ensures forall e :: e in expiry ==> e in old(expiry)
      ensures |expiry| <= 2 * |byToken| + QUEUE_SLACK
    {
      hide Consistent, Subset, LiveAt, LiveWithin, Retain;
      PopExpired(now);
      ExpiryKeepsStore(old(byToken), old(expiry), outstanding, used, clock, now, skew);
      clock := now;
      if |expiry| > 2 * |byToken| + QUEUE_SLACK {
        CompactKeepsStore(byToken, expiry, outstanding, used, clock, skew);
        expiry := Retain(expiry, byToken);
      }
    }

    /** The live ticket `token` names: every one minted, not released and younger than the backstop is answered, and
        none past it by `skew`; so, with mints in time order, exactly those. */
    method Get(token: Token, now: int) returns (r: Option<Ticket>)
      requires Valid() && clock <= now
      modifies this
      ensures Valid() && clock == now && skew == old(skew)
      ensures outstanding == old(outstanding) && used == old(used)
      ensures token in outstanding && now - outstanding[token].mintedAt < TICKET_BACKSTOP ==>
                r == Some(outstanding[token])
      ensures r.Some? ==>
                && token in outstanding && r == Some(outstanding[token])
                && now - outstanding[token].mintedAt < TICKET_BACKSTOP + skew
      ensures |expiry| <= 2 * |byToken| + QUEUE_SLACK
    {
      Expire(now);
      r := if token in byToken then Some(byToken[token]) else None;
    }

    /** Mint `t` under the fresh `token`, refused while the daemon or the session holds its fill of live
        tickets. Its time was read before the lock, so it may come after a later one's: `skew` remembers by how much. */
    method Mint(token: Token, t: Ticket, now: int) returns (r: Result<Token, Busy>)
      requires Valid() && clock <= now
      requires token !in used
      modifies this
      ensures Valid() && clock == now
      ensures r == Err(DaemonFull) ==> |LiveWithin(old(outstanding), now, old(skew))| >= MAX_LIVE_TICKETS
      ensures r == Err(SessionFull) ==>
                && |OfSession(LiveWithin(old(outstanding), now, old(skew)), t.session)| >= MAX_SESSION_TICKETS
                && |LiveAt(old(outstanding), now)| < MAX_LIVE_TICKETS
      ensures r.Ok? ==>
                && r.value == token && |LiveAt(old(outstanding), now)| < MAX_LIVE_TICKETS
                && |OfSession(LiveAt(old(outstanding), now), t.session)| < MAX_SESSION_TICKETS
      ensures outstanding == if r.Ok? then old(outstanding)[token := t] else old(outstanding)
      ensures used == if r.Ok? then old(used) + {token} else old(used)
      ensures skew == if r.Ok? then Max(old(skew), Lateness(old(expiry), t.mintedAt)) else old(skew)
    {
      hide Consistent, Subset, LiveAt, LiveWithin, OfSession, Lateness;
      Expire(now);
      CapsBetween(LiveAt(outstanding, now), byToken, LiveWithin(outstanding, now, skew), t.session);
      if |byToken| >= MAX_LIVE_TICKETS {
        return Err(DaemonFull);
      }
      if |OfSession(byToken, t.session)| >= MAX_SESSION_TICKETS {
        return Err(SessionFull);
      }
      skew := Max(skew, Lateness(old(expiry), t.mintedAt));
      MintKeepsStore(byToken, expiry, outstanding, used, clock, token, t, old(skew), skew);
      expiry := expiry + [Entry(t.mintedAt, token)];
      byToken := byToken[token := t];
      outstanding := outstanding[token := t];
      used := used + {token};
      return Ok(token);
    }

    /** Release what the names select; the queue entries stay until an expiry drops them. */
    method Release(session: string, agentId: Option<string>, toolUse: Option<string>) returns (released: nat)
      requires Valid()
      modifies this
      ensures Valid() && clock == old(clock) && used == old(used) && expiry == old(expiry) && skew == old(skew)
      ensures outstanding == Released(old(outstanding), session, agentId, toolUse)
      ensures byToken == Released(old(byToken), session, agentId, toolUse)
      ensures released == |old(byToken)| - |byToken|
      // A call's ticket, else an agent's, else the session's; and no other.
      ensures forall t :: t in outstanding <==>
                t in old(outstanding)
                && !(&& old(outstanding)[t].session == session
                     && (toolUse.Some? ==> old(outstanding)[t].toolUse == toolUse.value)
                     && (toolUse.None? && agentId.Some? ==> old(outstanding)[t].agentId == agentId))
      ensures forall t :: t in outstanding ==> outstanding[t] == old(outstanding)[t]
    {
      var before := |byToken|;
      ReleaseKeepsStore(byToken, expiry, outstanding, used, clock, skew, session, agentId, toolUse);
      byToken := Released(byToken, session, agentId, toolUse);
      released := before - |byToken|;
      outstanding := Released(outstanding, session, agentId, toolUse);
    }
  }

  // ---------------------------------------------------------------------------------------
  // Each operation keeps the store
  // ---------------------------------------------------------------------------------------

  lemma RestStaysQueued(q: seq<Entry>, tickets: map<Token, Ticket>, k: nat, skew: nat)
    requires Queued(q, tickets) && InOrder(q, skew) && k <= |q|
    ensures Queued(q[k..], tickets - Tokens(q[..k])) && InOrder(q[k..], skew)
    ensures Tokens(q[k..]) <= Tokens(q)
  {
    var left := tickets - Tokens(q[..k]);
    assert forall i :: 0 <= i < k ==> q[..k][i] == q[i];
    forall t | t in left ensures Entry(left[t].mintedAt, t) in q[k..] {
      var i :| 0 <= i < |q| && q[i] == Entry(tickets[t].mintedAt, t);
      assert i >= k;
      assert q[k..][i - k] == q[i];
    }
  }

  lemma ExpiryKeepsStore(
    byToken: map<Token, Ticket>, expiry: seq<Entry>, outstanding: map<Token, Ticket>, used: set<Token>,
    clock: int, now: int, skew: nat)
    requires Consistent(byToken, expiry, outstanding, used, clock, skew) && clock <= now
    ensures var k := ExpiredPrefix(expiry, now);
            var left := byToken - Tokens(expiry[..k]);
            && Subset(LiveAt(outstanding, now), left) && Subset(left, LiveWithin(outstanding, now, skew))
            && (skew == 0 ==> left == LiveAt(outstanding, now))
            && Consistent(left, expiry[k..], outstanding, used, now, skew)
  {
    var k := ExpiredPrefix(expiry, now);
    var left := byToken - Tokens(expiry[..k]);
    ExpiryIsNearlyExact(expiry, byToken, now, skew);
    RestStaysQueued(expiry, byToken, k, skew);
    LiveOfSubset(byToken, outstanding, clock, now);
    SubsetCaps(byToken, left);
    if skew == 0 {
      SubsetBothWays(left, LiveAt(outstanding, now));
    }
  }

  lemma LiveOfSubset(byToken: map<Token, Ticket>, outstanding: map<Token, Ticket>, clock: int, now: int)
    requires Subset(byToken, outstanding) && clock <= now
    requires forall t :: t in outstanding && t !in byToken ==> !Young(outstanding[t].mintedAt, clock)
    ensures LiveAt(byToken, now) == LiveAt(outstanding, now)
    ensures Subset(LiveAt(outstanding, now), byToken)
  {
  }

  lemma CompactKeepsStore(
    byToken: map<Token, Ticket>, expiry: seq<Entry>, outstanding: map<Token, Ticket>, used: set<Token>, clock: int,
    skew: nat)
    requires Consistent(byToken, expiry, outstanding, used, clock, skew)
    ensures Consistent(byToken, Retain(expiry, byToken), outstanding, used, clock, skew)
    ensures |Retain(expiry, byToken)| <= |byToken|
    ensures forall e :: e in Retain(expiry, byToken) ==> e in expiry
  {
    hide Retain;
    RetainQueued(expiry, byToken);
    RetainKeeps(expiry, byToken);
    DistinctBound(Retain(expiry, byToken), byToken.Keys);
  }

  lemma RetainQueued(q: seq<Entry>, tickets: map<Token, Ticket>)
    requires Queued(q, tickets)
    ensures Queued(Retain(q, tickets), tickets) && Tokens(Retain(q, tickets)) <= Tokens(q)
  {
    hide Retain;
    RetainKeeps(q, tickets);
  }

  lemma MintKeepsStore(
    byToken: map<Token, Ticket>, expiry: seq<Entry>, outstanding: map<Token, Ticket>, used: set<Token>, clock: int,
    token: Token, t: Ticket, was: nat, skew: nat)
    requires Consistent(byToken, expiry, outstanding, used, clock, was) && was <= skew
    requires token !in used && |byToken| < MAX_LIVE_TICKETS
    requires |OfSession(byToken, t.session)| < MAX_SESSION_TICKETS
    requires forall e :: e in expiry ==> e.at <= t.mintedAt + skew
    ensures Consistent(
              byToken[token := t], expiry + [Entry(t.mintedAt, token)], outstanding[token := t], used + {token}, clock,
              skew)
  {
    hide Queued, InOrder, Tokens, WithinCaps, OfSession;
    MoreSkew(expiry, was, skew);
    MintKeepsQueue(expiry, byToken, token, t, skew);
    MintKeepsCaps(byToken, token, t);
  }

  lemma MoreSkew(q: seq<Entry>, was: nat, skew: nat)
    requires InOrder(q, was) && was <= skew
    ensures InOrder(q, skew)
  {
  }

  lemma ReleaseKeepsStore(
    byToken: map<Token, Ticket>, expiry: seq<Entry>, outstanding: map<Token, Ticket>, used: set<Token>, clock: int,
    skew: nat, session: string, agentId: Option<string>, toolUse: Option<string>)
    requires Consistent(byToken, expiry, outstanding, used, clock, skew)
    ensures Consistent(
              Released(byToken, session, agentId, toolUse), expiry, Released(outstanding, session, agentId, toolUse),
              used, clock, skew)
    ensures |Released(byToken, session, agentId, toolUse)| <= |byToken|
  {
    SubsetCaps(byToken, Released(byToken, session, agentId, toolUse));
  }

  /** Counts of a set of tickets between two others are between theirs. */
  lemma CapsBetween(small: map<Token, Ticket>, mid: map<Token, Ticket>, big: map<Token, Ticket>, session: string)
    requires Subset(small, mid) && Subset(mid, big)
    ensures |small| <= |mid| <= |big|
    ensures |OfSession(small, session)| <= |OfSession(mid, session)| <= |OfSession(big, session)|
  {
    SubsetCard(small.Keys, mid.Keys);
    SubsetCard(mid.Keys, big.Keys);
    SubsetCard(OfSession(small, session), OfSession(mid, session));
    SubsetCard(OfSession(mid, session), OfSession(big, session));
  }

  /** Dropping tickets keeps both caps. */
  lemma SubsetCaps(before: map<Token, Ticket>, after: map<Token, Ticket>)
    requires Subset(after, before) && WithinCaps(before)
    ensures |after| <= |before| && WithinCaps(after)
  {
    SubsetCard(after.Keys, before.Keys);
    forall s ensures |OfSession(after, s)| <= MAX_SESSION_TICKETS {
      SubsetCard(OfSession(after, s), OfSession(before, s));
    }
  }

  lemma SubsetCard<T>(a: set<T>, b: set<T>)
    requires a <= b
    ensures |a| <= |b|
  {
    assert b == a + (b - a);
  }

  lemma MintKeepsQueue(q: seq<Entry>, tickets: map<Token, Ticket>, token: Token, t: Ticket, skew: nat)
    requires Queued(q, tickets) && InOrder(q, skew)
    requires token !in Tokens(q) && token !in tickets
    requires forall e :: e in q ==> e.at <= t.mintedAt + skew
    ensures Queued(q + [Entry(t.mintedAt, token)], tickets[token := t])
    ensures InOrder(q + [Entry(t.mintedAt, token)], skew)
    ensures Tokens(q + [Entry(t.mintedAt, token)]) == Tokens(q) + {token}
  {
    var r := q + [Entry(t.mintedAt, token)];
    assert forall i :: 0 <= i < |q| ==> q[i].token in Tokens(q);
    assert r[|q|] == Entry(t.mintedAt, token);
  }

  lemma MintKeepsCaps(tickets: map<Token, Ticket>, token: Token, t: Ticket)
    requires token !in tickets
    requires |tickets| < MAX_LIVE_TICKETS
    requires |OfSession(tickets, t.session)| < MAX_SESSION_TICKETS
    requires WithinCaps(tickets)
    ensures WithinCaps(tickets[token := t])
  {
    var after := tickets[token := t];
    assert after.Keys == tickets.Keys + {token};
    forall s ensures |OfSession(after, s)| <= MAX_SESSION_TICKETS {
      MintedOfSession(tickets, token, t, after, s);
    }
  }

  lemma MintedOfSession(tickets: map<Token, Ticket>, token: Token, t: Ticket, after: map<Token, Ticket>, s: string)
    requires token !in tickets && after == tickets[token := t]
    ensures |OfSession(after, s)| == |OfSession(tickets, s)| + if s == t.session then 1 else 0
  {
    if s == t.session {
      assert OfSession(after, s) == OfSession(tickets, s) + {token};
    } else {
      assert OfSession(after, s) == OfSession(tickets, s);
    }
  }
}
