/** The bounded PostgreSQL connection pool: what each lock region of the pool computes, and the
    pool and wrapper objects that run those regions. */
module ConnectionPool {

  /** A physical connection, by the order in which connections were made. */
  type Connection = nat

  datatype Pool = Pool(maximum: nat, idle: seq<Connection>, created: int, closed: bool)

  /** How one pass through the acquire lock region ends. */
  datatype Entry = Unavailable | Reused(connection: Connection) | Reserved | MustWait

  /** `expired`: no time is left before the acquire deadline. */
  function EnterAcquire(p: Pool, expired: bool): (Pool, Entry) {
    if p.closed then (p, Unavailable)
    else if p.idle != [] then
      (p.(idle := p.idle[..|p.idle| - 1]), Reused(p.idle[|p.idle| - 1]))
    else if p.created < p.maximum then (p.(created := p.created + 1), Reserved)
    else if expired then (p, Unavailable)
    else (p, MustWait)
  }

  function AfterFailedConnect(p: Pool): Pool {
    p.(created := p.created - 1)
  }

  /** The flag says the connection must be closed physically after the lock region. */
  function EnterRelease(p: Pool, c: Connection, reusable: bool): (Pool, bool) {
    if reusable && !p.closed then (p.(idle := p.idle + [c]), false)
    else (p.(created := p.created - 1), true)
  }

  /** The connections returned are closed physically after the lock region. */
  function EnterClose(p: Pool): (Pool, seq<Connection>) {
    if p.closed then (p, [])
    else (p.(closed := true, idle := [], created := p.created - |p.idle|), p.idle)
  }

  /** Whether an undisturbed acquire gets a connection. */
  predicate CanAcquire(p: Pool, connects: bool) {
    !p.closed && (p.idle != [] || (p.created < p.maximum && connects))
  }

  /** Slots taken by connections that are lent out or being made. */
  function InUse(p: Pool): int {
    p.created - |p.idle|
  }

  function Copies(s: seq<Connection>, c: Connection): nat {
    if s == [] then 0 else (if s[0] == c then 1 else 0) + Copies(s[1..], c)
  }

  function Made(made: nat, c: Connection): nat {
    if c < made then 1 else 0
  }

  lemma {:induction false} CopiesAppend(s: seq<Connection>, x: Connection, c: Connection)
    ensures Copies(s + [x], c) == Copies(s, c) + if x == c then 1 else 0
  {
    if s != [] {
      assert (s + [x])[1..] == s[1..] + [x];
      CopiesAppend(s[1..], x, c);
    }
  }

  lemma {:induction false} TakeLast(s: seq<Connection>)
    requires s != []
    ensures forall c :: Copies(s, c) == Copies(s[..|s| - 1], c) + if s[|s| - 1] == c then 1 else 0
  {
    assert s == s[..|s| - 1] + [s[|s| - 1]];
    forall c ensures Copies(s, c) == Copies(s[..|s| - 1], c) + if s[|s| - 1] == c then 1 else 0 {
      CopiesAppend(s[..|s| - 1], s[|s| - 1], c);
    }
  }

  lemma {:induction false} AppendEach(s: seq<Connection>, x: Connection)
    ensures forall c :: Copies(s + [x], c) == Copies(s, c) + if x == c then 1 else 0
  {
    forall c ensures Copies(s + [x], c) == Copies(s, c) + if x == c then 1 else 0 {
      CopiesAppend(s, x, c);
    }
  }

  class PostgresConnectionPool {
    const maximum: nat
    var idle: seq<Connection>
    var created: int
    var closed: bool
    /** Connections whose physical close was attempted, and the number ever made. */
    var retired: seq<Connection>
    var made: nat

    function State(): Pool
      reads this
    {
      Pool(maximum, idle, created, closed)
    }

    /** Every connection ever made is idle, in `lent`, or retired, each exactly once. */
    ghost predicate Accounted(lent: multiset<Connection>)
      reads this
    {
      && (forall c :: Copies(idle, c) + lent[c] + Copies(retired, c) == Made(made, c))
      && created == |idle| + |lent|
      && created <= maximum
      && (closed ==> idle == [])
    }

    constructor (maximum: nat)
      requires 1 <= maximum <= 64
      ensures State() == Pool(maximum, [], 0, false) && retired == [] && made == 0
      ensures Accounted(multiset{})
    {
      this.maximum := maximum;
      idle, created, closed := [], 0, false;
      retired, made := [], 0;
    }

    method EnterAcquireRegion(expired: bool) returns (entry: Entry)
      modifies `idle, `created
      ensures (State(), entry) == EnterAcquire(old(State()), expired)
    {
      if closed {
        return Unavailable;
      }
      if idle != [] {
        var c := idle[|idle| - 1];
        idle := idle[..|idle| - 1];
        return Reused(c);
      }
      if created < maximum {
        created := created + 1;
        return Reserved;
      }
      return if expired then Unavailable else MustWait;
    }

    /** A whole acquire with nobody else using the pool: a wait then changes nothing, so the
        deadline passes. */
    method Acquire(connects: bool, ghost lent: multiset<Connection>) returns (got: bool, c: Connection)
      requires Accounted(lent)
      modifies this
      ensures closed == old(closed) && retired == old(retired)
      ensures got ==> Accounted(lent + multiset{c})
      ensures !got ==> Accounted(lent) && made == old(made) && idle == old(idle) && created == old(created)
      ensures got <==> CanAcquire(old(State()), connects)
      ensures old(idle) != [] && got ==>
        c == old(idle)[|old(idle)| - 1] && idle == old(idle)[..|old(idle)| - 1] && made == old(made)
      ensures old(idle) == [] && got ==> c == old(made) && made == old(made) + 1 && idle == []
    {
      if idle != [] {
        TakeLast(idle);
      }
      var entry := EnterAcquireRegion(false);
      if entry.MustWait? {
        entry := EnterAcquireRegion(true);
      }
      got, c := entry.Reused? || (entry.Reserved? && connects), 0;
      if entry.Reused? {
        c := entry.connection;
      } else if entry.Reserved? && connects {
        c, made := made, made + 1;
      } else if entry.Reserved? {
        created := created - 1;
      }
    }

    /** A connection came back: it is idle again if it rolled back and the pool is open, and otherwise
        its slot is free and it was closed physically. */
    ghost predicate Returned(before: Pool, retiredBefore: seq<Connection>, c: Connection, rollsBack: bool)
      reads this
    {
      && closed == before.closed && maximum == before.maximum
      && if rollsBack && !before.closed
         then idle == before.idle + [c] && created == before.created && retired == retiredBefore
         else idle == before.idle && created == before.created - 1 && retired == retiredBefore + [c]
    }

    /** One connection was borrowed and came back: the last idle one, or a new one if there was none. */
    ghost predicate UsedOnce(before: Pool, retiredBefore: seq<Connection>, madeBefore: nat, rollsBack: bool)
      reads this
    {
      var n := |before.idle|;
      var c, rest := if n > 0 then before.idle[n - 1] else madeBefore, if n > 0 then before.idle[..n - 1] else [];
      && made == (if n > 0 then madeBefore else madeBefore + 1)
      && idle == (if rollsBack then rest + [c] else rest)
      && retired == (if rollsBack then retiredBefore else retiredBefore + [c])
      && created == |idle| + before.created - |before.idle|
    }

    method EnterReleaseRegion(c: Connection, reusable: bool) returns (retire: bool)
      modifies `idle, `created
      ensures (State(), retire) == EnterRelease(old(State()), c, reusable)
      ensures retire <==> !(reusable && !closed)
      ensures !retire ==> idle == old(idle) + [c] && created == old(created)
      ensures retire ==> idle == old(idle) && created == old(created) - 1
    {
      if reusable && !closed {
        idle := idle + [c];
        return false;
      }
      created := created - 1;
      return true;
    }

    method Release(c: Connection, rollsBack: bool, ghost lent: multiset<Connection>)
      requires c in lent && Accounted(lent)
      modifies this
      ensures Accounted(lent - multiset{c})
      ensures Returned(old(State()), old(retired), c, rollsBack)
      ensures made == old(made)
    {
      AppendEach(idle, c);
      AppendEach(retired, c);
      var retire := EnterReleaseRegion(c, rollsBack);
      if retire {
        retired := retired + [c];
      }
    }

    method Close(ghost lent: multiset<Connection>)
      requires Accounted(lent)
      modifies this
      ensures Accounted(lent)
      ensures State() == EnterClose(old(State())).0
      ensures closed && idle == [] && made == old(made)
      ensures old(closed) ==> created == old(created) && retired == old(retired)
      ensures !old(closed) ==> created == old(created) - |old(idle)| && retired == old(retired) + old(idle)
      ensures lent == multiset{} ==> created == 0 && forall c :: Copies(retired, c) == Made(made, c)
    {
      if closed {
        return;
      }
      closed := true;
      var taken := idle;
      idle := [];
      created := created - |taken|;
      for i := 0 to |taken|
        invariant State() == EnterClose(old(State())).0
        invariant retired == old(retired) + taken[..i]
        invariant made == old(made)
        invariant forall c :: Copies(retired, c) + Copies(taken[i..], c) == Copies(old(retired), c) + Copies(taken, c)
      {
        AppendEach(retired, taken[i]);
        retired := retired + [taken[i]];
      }
      assert taken[..|taken|] == taken;
    }
  }

  /** The wrapper handed to a caller; its owner closes it, the first close releases. */
  class PooledConnection {
    const pool: PostgresConnectionPool
    const connection: Connection
    var released: bool

    constructor (pool: PostgresConnectionPool, connection: Connection)
      ensures this.pool == pool && this.connection == connection && !released
    {
      this.pool, this.connection, released := pool, connection, false;
    }

    method Close(rollsBack: bool, ghost lent: multiset<Connection>)
      requires pool.Accounted(lent) && (!released ==> connection in lent)
      modifies this, pool
      ensures released
      ensures old(released) ==> pool.State() == old(pool.State()) && pool.retired == old(pool.retired)
      ensures pool.made == old(pool.made)
      ensures pool.Accounted(if old(released) then lent else lent - multiset{connection})
      ensures !old(released) ==> pool.Returned(old(pool.State()), old(pool.retired), connection, rollsBack)
    {
      if released {
        return;
      }
      released := true;
      pool.Release(connection, rollsBack, lent);
    }
  }

  /** One tool call's connection: borrowed from the pool at the first repository use, shared by
      every later one, and returned when the call ends. */
  class RequestConnections {
    const pool: PostgresConnectionPool
    var held: PooledConnection?

    constructor (pool: PostgresConnectionPool)
      ensures this.pool == pool && held == null
    {
      this.pool, held := pool, null;
    }

    /** What this request has out of the pool, beside `others`. */
    ghost predicate Owns(others: multiset<Connection>)
      reads this, held, pool
    {
      && (held != null ==> held.pool == pool && !held.released)
      && pool.Accounted(if held == null then others else others + multiset{held.connection})
    }

    /** The request has the last idle connection, or a new one if there was none. */
    ghost predicate Lent(before: Pool, madeBefore: nat)
      reads this, held, pool
    {
      && held != null
      && if before.idle != []
         then
           && held.connection == before.idle[|before.idle| - 1] && pool.idle == before.idle[..|before.idle| - 1]
           && pool.created == before.created && pool.made == madeBefore
         else
           && held.connection == madeBefore && pool.idle == []
           && pool.created == before.created + 1 && pool.made == madeBefore + 1
    }

    method Borrow(connects: bool, ghost others: multiset<Connection>) returns (ok: bool)
      requires Owns(others)
      modifies this, pool
      ensures Owns(others)
      ensures old(held) != null ==>
        ok && held == old(held) && pool.State() == old(pool.State()) && pool.made == old(pool.made)
      ensures old(held) == null ==> (ok <==> held != null) && (held != null ==> fresh(held))
      ensures old(held) == null ==> (ok <==> CanAcquire(old(pool.State()), connects))
      ensures !ok ==> pool.idle == old(pool.idle) && pool.created == old(pool.created) && pool.made == old(pool.made)
      ensures old(held) == null && ok ==> Lent(old(pool.State()), old(pool.made))
      ensures pool.closed == old(pool.closed) && pool.retired == old(pool.retired)
    {
      if held != null {
        return true;
      }
      var got, c := pool.Acquire(connects, others);
      if !got {
        return false;
      }
      held := new PooledConnection(pool, c);
      return true;
    }

    /** The rollback may raise; the wrapper is closed all the same. */
    method Release(rollbackRaises: bool, rollsBack: bool, ghost others: multiset<Connection>) returns (raised: bool)
      requires Owns(others)
      modifies this, held, pool
      ensures held == null && Owns(others)
      ensures raised <==> old(held) != null && rollbackRaises
      ensures old(held) == null ==> pool.State() == old(pool.State()) && pool.retired == old(pool.retired)
      ensures old(held) != null ==> old(held).released
      ensures old(held) != null ==>
        pool.Returned(old(pool.State()), old(pool.retired), old(held).connection, rollsBack)
      ensures pool.made == old(pool.made)
    {
      var connection := held;
      held := null;
      if connection == null {
        return false;
      }
      raised := rollbackRaises;
      connection.Close(rollsBack, others + multiset{connection.connection});
      assert others + multiset{connection.connection} - multiset{connection.connection} == others;
    }

    /** A port method: repository uses until one raises, then the release that always runs.
        Whatever failed, the request leaves nothing lent. */
    method Serve(uses: seq<bool>, connects: bool, rollbackRaises: bool, rollsBack: bool,
        ghost others: multiset<Connection>)
      returns (served: bool)
      requires held == null && pool.Accounted(others)
      modifies this, pool
      ensures held == null && pool.Accounted(others)
      ensures InUse(pool.State()) == |others|
      ensures pool.closed == old(pool.closed)
      ensures uses == [] || !CanAcquire(old(pool.State()), connects) ==>
        pool.State() == old(pool.State()) && pool.retired == old(pool.retired) && pool.made == old(pool.made)
      ensures uses != [] && CanAcquire(old(pool.State()), connects) ==>
        pool.UsedOnce(old(pool.State()), old(pool.retired), old(pool.made), rollsBack)
      ensures served <==>
        uses == [] || (CanAcquire(old(pool.State()), connects) && !rollbackRaises
                      && forall i | 0 <= i < |uses| :: uses[i])
    {
      served := true;
      var i := 0;
      while i < |uses| && served
        invariant 0 <= i <= |uses|
        invariant Owns(others) && (held != null ==> fresh(held))
        invariant held == null ==> pool.State() == old(pool.State()) && pool.made == old(pool.made)
        invariant pool.retired == old(pool.retired) && pool.closed == old(pool.closed)
        invariant i == 0 ==> held == null
        invariant 0 < i ==> (held != null <==> CanAcquire(old(pool.State()), connects))
        invariant held != null ==> Lent(old(pool.State()), old(pool.made))
        invariant served <==> i == 0 || (held != null && forall k | 0 <= k < i :: uses[k])
      {
        var ok := Borrow(connects, others);
        served := ok && uses[i];
        i := i + 1;
      }
      var raised := Release(rollbackRaises, rollsBack, others);
      served := served && !raised;
    }
  }
}
