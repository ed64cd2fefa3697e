/**
 The connection pool of DatabaseManager in core/database.py: threads borrowing and returning
 connections while another closes the manager.  Each step is what one thread does without yielding.
 */
module Pool {

  type Conn = nat

  /** One use of `connection()`; a nested use is another. */
  type Thread = nat

  /** Where a thread is inside `connection()`; a thread outside has none. */
  datatype Phase = Asking | Probing(conn: Conn) | Using(conn: Conn) | Returning(conn: Conn) | Dead

  /** Connections are numbered as they are created; `draining` says that close() holds the lock. */
  datatype World = World(size: nat, pool: seq<Conn>, users: map<Thread, Phase>, shut: set<Conn>, next: nat,
                         closed: bool, draining: bool)

  datatype Step =
    | Enter(t: Thread)
    | Get(t: Thread)
    | Spare(t: Thread, created: bool)
    | Probe(t: Thread, alive: bool, created: bool)
    | Rollback(t: Thread, ok: bool)
    | PutBack(t: Thread)
    | BeginClose
    | DrainOne
    | EndClose

  predicate Is(w: World, t: Thread, p: Phase) { t in w.users && w.users[t] == p }

  predicate Enabled(w: World, s: Step)
  {
    match s
    case Enter(t) => t !in w.users && !w.closed
    case Get(t) => Is(w, t, Asking) && w.pool != []
    case Spare(t, _) => Is(w, t, Asking) && w.pool == []
    case Probe(t, _, _) => t in w.users && w.users[t].Probing?
    case Rollback(t, ok) => t in w.users && (w.users[t].Using? || (w.users[t].Dead? && !ok))
    case PutBack(t) => t in w.users && w.users[t].Returning? && !w.draining
    case BeginClose => !w.closed && !w.draining
    case DrainOne => w.draining && w.pool != []
    case EndClose => w.draining && w.pool == []
  }

  function Move(w: World, t: Thread, p: Phase): World { w.(users := w.users[t := p]) }

  function Leave(w: World, t: Thread): World { w.(users := w.users - {t}) }

  /** The locked end of `connection()`: nothing goes back to a closed or full pool. */
  function GiveBack(w: World, c: Conn): World
  {
    if w.closed || |w.pool| >= w.size then w.(shut := w.shut + {c}) else w.(pool := w.pool + [c])
  }

  function After(w: World, s: Step): World
    requires Enabled(w, s)
  {
    match s
    case Enter(t) => Move(w, t, Asking)
    case Get(t) => Move(w, t, Probing(w.pool[0])).(pool := w.pool[1..])
    case Spare(t, created) => if created then Move(w, t, Probing(w.next)).(next := w.next + 1) else Leave(w, t)
    case Probe(t, alive, created) =>
      var c := w.users[t].conn;
      if alive then Move(w, t, Using(c))
      else if created then Move(w, t, Using(w.next)).(next := w.next + 1, shut := w.shut + {c})
      else Move(w, t, Dead).(shut := w.shut + {c})
    case Rollback(t, ok) =>
      if w.users[t].Dead? then Leave(w, t)
      else if ok then Move(w, t, Returning(w.users[t].conn))
      else Leave(w, t).(shut := w.shut + {w.users[t].conn})
    case PutBack(t) => GiveBack(Leave(w, t), w.users[t].conn)
    case BeginClose => w.(closed := true, draining := true)
    case DrainOne => w.(pool := w.pool[1..], shut := w.shut + {w.pool[0]})
    case EndClose => w.(draining := false)
  }

  // ---------- the invariant ----------

  predicate Holds(w: World, t: Thread, c: Conn)
  {
    t in w.users && (w.users[t].Probing? || w.users[t].Using? || w.users[t].Returning?) && w.users[t].conn == c
  }

  predicate Pooled(w: World, c: Conn) { c in w.pool }

  predicate Borrowed(w: World, c: Conn) { exists t <- w.users :: Holds(w, t, c) }

  predicate Shut(w: World, c: Conn) { c in w.shut }

  /** In one of the three places and in no two. */
  predicate ExactlyOne(w: World, c: Conn)
  {
    && (Pooled(w, c) || Borrowed(w, c) || Shut(w, c))
    && !(Pooled(w, c) && Borrowed(w, c)) && !(Pooled(w, c) && Shut(w, c)) && !(Borrowed(w, c) && Shut(w, c))
  }

  predicate NoTwice(s: seq<Conn>) { forall i, j :: 0 <= i < j < |s| ==> s[i] != s[j] }

  ghost predicate OneHolder(w: World)
  {
    forall t, u, c :: Holds(w, t, c) && Holds(w, u, c) ==> t == u
  }

  /** Every connection ever created is in exactly one place, once; and the pool obeys its size and its closing. */
  ghost predicate Inv(w: World)
  {
    && (forall c: Conn :: c < w.next ==> ExactlyOne(w, c))
    && (forall c: Conn :: Pooled(w, c) || Borrowed(w, c) || Shut(w, c) ==> c < w.next)
    && NoTwice(w.pool) && OneHolder(w)
    && |w.pool| <= w.size
    && (w.closed && !w.draining ==> w.pool == []) && (w.draining ==> w.closed)
  }

  /** A step of close(), which no borrower takes. */
  predicate IsClosing(s: Step) { s.BeginClose? || s.DrainOne? || s.EndClose? }

  function Actor(s: Step): Thread
  {
    if IsClosing(s) then 0 else s.t
  }

  /** Only the acting thread's hold changes. */
  lemma OthersHold(w: World, s: Step, u: Thread, c: Conn)
    requires Enabled(w, s) && (u != Actor(s) || IsClosing(s))
    ensures Holds(After(w, s), u, c) <==> Holds(w, u, c)
  {
  }

  /** What the acting thread holds afterwards: what it held, the head of the pool, or a new connection. */
  lemma ActorHolds(w: World, s: Step, c: Conn)
    requires Enabled(w, s) && Holds(After(w, s), Actor(s), c)
    ensures Holds(w, Actor(s), c) || (s.Get? && c == w.pool[0]) || (c == w.next && After(w, s).next == w.next + 1)
  {
  }

  lemma Exclusive(w: World, s: Step)
    requires Inv(w) && Enabled(w, s)
    ensures OneHolder(After(w, s))
  {
    hide After, Enabled;
    var w', a := After(w, s), Actor(s);
    forall t, u, c | Holds(w', t, c) && Holds(w', u, c) ensures t == u {
      OnlyOne(w, s, t, u, c);
    }
  }

  lemma OnlyOne(w: World, s: Step, t: Thread, u: Thread, c: Conn)
    requires Inv(w) && Enabled(w, s) && Holds(After(w, s), t, c) && Holds(After(w, s), u, c)
    ensures t == u
  {
    assert Holds(w, t, c) || Holds(w, u, c) ==> Borrowed(w, c);
    if t != Actor(s) { OthersHold(w, s, t, c); } else { ActorHolds(w, s, c); }
    if u != Actor(s) { OthersHold(w, s, u, c); } else { ActorHolds(w, s, c); }
    hide After;
    assert c < w.next ==> ExactlyOne(w, c);
  }

  lemma PopsHead(s: seq<Conn>)
    requires s != [] && NoTwice(s)
    ensures NoTwice(s[1..]) && forall c :: c in s[1..] <==> c in s && c != s[0]
  {
  }

  lemma StepKeepsInv(w: World, s: Step)
    requires Inv(w) && Enabled(w, s)
    ensures Inv(After(w, s))
  {
    Exclusive(w, s);
    if w.pool != [] { PopsHead(w.pool); }
    var w' := After(w, s);
    forall c: Conn ensures c < w'.next ==> ExactlyOne(w', c)
      ensures Pooled(w', c) || Borrowed(w', c) || Shut(w', c) ==> c < w'.next
    {
      StepKeepsPlace(w, s, c);
    }
    if s.PutBack? {
      var d := w.users[s.t].conn;
      assert Holds(w, s.t, d) && Borrowed(w, d);
      assert ExactlyOne(w, d) && !Pooled(w, d);
    }
  }

  lemma StepKeepsPlace(w: World, s: Step, c: Conn)
    requires Inv(w) && Enabled(w, s)
    requires w.pool != [] ==> forall d :: d in w.pool[1..] <==> d in w.pool && d != w.pool[0]
    ensures c < After(w, s).next ==> ExactlyOne(After(w, s), c)
    ensures Pooled(After(w, s), c) || Borrowed(After(w, s), c) || Shut(After(w, s), c) ==> c < After(w, s).next
  {
    BorrowedAfter(w, s, c);
    if Holds(w, Actor(s), c) { assert Borrowed(w, c); }
    assert c < w.next ==> ExactlyOne(w, c);
    assert Pooled(w, c) || Borrowed(w, c) || Shut(w, c) ==> c < w.next;
    hide Borrowed, Inv, OneHolder, NoTwice;
    match s
    case Enter(t) => 
    case Get(t) => 
    case Spare(t, created) =>
    case Probe(t, alive, created) =>
    case Rollback(t, ok) =>
    case PutBack(t) =>
    case BeginClose =>
    case DrainOne =>
    case EndClose =>
  }

  lemma BorrowedAfter(w: World, s: Step, c: Conn)
    requires Inv(w) && Enabled(w, s)
    ensures IsClosing(s) ==> (Borrowed(After(w, s), c) <==> Borrowed(w, c))
    ensures !(IsClosing(s)) ==>
              (Borrowed(After(w, s), c)
               <==> Holds(After(w, s), Actor(s), c) || (Borrowed(w, c) && !Holds(w, Actor(s), c)))
  {
    var w', a := After(w, s), Actor(s);
    if Borrowed(w', c) {
      var u :| u in w'.users && Holds(w', u, c);
      if u != a || IsClosing(s) {
        OthersHold(w, s, u, c);
        assert Borrowed(w, c);
      }
    }
    if Borrowed(w, c) {
      var u :| u in w.users && Holds(w, u, c);
      if u != a || IsClosing(s) {
        OthersHold(w, s, u, c);
        assert Borrowed(w', c);
      }
    }
  }

  // ---------- every run ----------

  /** The world after some steps; one that cannot happen does nothing. */
  function Run(start: World, steps: seq<Step>): World
  {
    if steps == [] then start
    else
      var w, s := Run(start, steps[..|steps| - 1]), steps[|steps| - 1];
      if Enabled(w, s) then After(w, s) else w
  }

  /** A pool as the constructor leaves it. */
  predicate Start(w: World)
  {
    w.size > 0 && w.users == map[] && w.shut == {} && !w.closed && !w.draining && w.next <= w.size
    && w.pool == seq(w.next, i requires 0 <= i => i)
  }

  /**
   In every interleaving each connection created is pooled, borrowed or closed, and only one of these, by
   one thread.
   */
  lemma {:induction false} EveryRun(start: World, steps: seq<Step>)
    requires Start(start)
    ensures Inv(Run(start, steps))
  {
    if steps == [] {
      forall c: Conn | c < start.next ensures ExactlyOne(start, c) {
        assert start.pool[c] == c;
      }
    } else {
      var w, s := Run(start, steps[..|steps| - 1]), steps[|steps| - 1];
      EveryRun(start, steps[..|steps| - 1]);
      if Enabled(w, s) { StepKeepsInv(w, s); }
    }
  }

  /** Once close() is done the pool is empty, and with no borrower nothing is left open. */
  lemma ClosedAndQuiet(start: World, steps: seq<Step>)
    requires Start(start)
    requires Run(start, steps).closed && !Run(start, steps).draining
    ensures var w := Run(start, steps);
            w.pool == [] && (forall c: Conn :: c < w.next ==> Borrowed(w, c) != Shut(w, c))
            && ((forall t <- w.users :: w.users[t] == Asking || w.users[t] == Dead) ==>
                forall c: Conn :: c < w.next ==> Shut(w, c))
  {
    EveryRun(start, steps);
    var w := Run(start, steps);
    forall c: Conn | c < w.next ensures Borrowed(w, c) != Shut(w, c) {
      assert ExactlyOne(w, c);
    }
  }

  /** While close() holds the lock the pool only shrinks, so its loop ends. */
  lemma DrainShrinks(w: World, s: Step)
    requires Enabled(w, s) && w.draining
    ensures |After(w, s).pool| <= |w.pool| && (s.DrainOne? ==> |After(w, s).pool| < |w.pool|)
    ensures w.pool != [] ==> Enabled(w, DrainOne)
    ensures w.pool == [] ==> Enabled(w, EndClose)
  {
  }

  /** A thread inside can always take its next step, unless it waits for close() to let go of the lock. */
  lemma BorrowersProgress(w: World, t: Thread)
    requires t in w.users
    ensures (w.users[t].Returning? && w.draining) || exists s :: Enabled(w, s) && !IsClosing(s) && s.t == t
  {
    var s := match w.users[t]
             case Asking => if w.pool != [] then Get(t) else Spare(t, true)
             case Probing(_) => Probe(t, true, true)
             case Using(_) => Rollback(t, true)
             case Returning(_) => PutBack(t)
             case Dead => Rollback(t, false);
    if !(w.users[t].Returning? && w.draining) { assert Enabled(w, s); }
  }

  // ---------- what decides where a connection goes ----------

  /** A connection goes back to the pool exactly when the pool is open and has room; else it is closed. */
  lemma GoesBackIff(w: World, t: Thread)
    requires Inv(w) && Enabled(w, PutBack(t))
    ensures var c := w.users[t].conn;
            var v := After(w, PutBack(t));
            && t !in v.users && (Shut(v, c) <==> !Pooled(v, c))
            && (Pooled(v, c) <==> !w.closed && |w.pool| < w.size)
            && (Pooled(v, c) ==> v.pool == w.pool + [c])
  {
    var c := w.users[t].conn;
    assert Holds(w, t, c) && Borrowed(w, c) && ExactlyOne(w, c);
  }

  /** A dead connection is closed and not used: its thread has a new one, or none. */
  lemma DeadIsClosed(w: World, t: Thread, created: bool)
    requires Inv(w) && Enabled(w, Probe(t, false, created))
    ensures var v := After(w, Probe(t, false, created));
            && Shut(v, w.users[t].conn) && v.users[t] == (if created then Using(w.next) else Dead)
            && Is(After(w, Probe(t, true, created)), t, Using(w.users[t].conn))
  {
  }

  /** A connection whose rollback failed is closed; one whose rollback went well is returned. */
  lemma RollbackDecides(w: World, t: Thread)
    requires Inv(w) && t in w.users && w.users[t].Using?
    ensures var c := w.users[t].conn;
            && Shut(After(w, Rollback(t, false)), c) && t !in After(w, Rollback(t, false)).users
            && Is(After(w, Rollback(t, true)), t, Returning(c)) && After(w, Rollback(t, true)).shut == w.shut
  {
  }

  /** Once closing has begun nobody comes in, and it stays closed. */
  lemma ClosedLetsNobodyIn(w: World, s: Step)
    requires Enabled(w, s) && w.closed
    ensures After(w, s).closed && After(w, s).users.Keys <= w.users.Keys
  {
  }

  /** Connections are lent in the order they came back: the first of the pool is taken, what returns goes behind. */
  lemma FirstIsLent(w: World, t: Thread)
    requires Enabled(w, Get(t))
    ensures After(w, Get(t)).users[t] == Probing(w.pool[0]) && [w.pool[0]] + After(w, Get(t)).pool == w.pool
  {
  }

  // ---------- the code ----------

  class DatabaseManager {
    const size: nat
    var pool: seq<Conn>
    var shut: set<Conn>
    var next: nat
    var closed: bool

    ghost function Seen(users: map<Thread, Phase>): World
      reads this
    {
      World(size, pool, users, shut, next, closed, false)
    }

    /** Opens the connections one by one; each attempt may fail. */
    constructor (size: nat, opens: nat -> bool)
      requires size > 0
      ensures Start(Seen(map[])) && this.size == size
      ensures (forall i: nat :: i < size ==> opens(i)) ==> |pool| == size
    {
      this.size, this.pool, this.shut, this.next, this.closed := size, [], {}, 0, false;
      new;
      for i := 0 to size
        invariant next <= i && pool == seq(next, j requires 0 <= j => j) && shut == {} && !closed
        invariant (forall j: nat :: j < i ==> opens(j)) ==> next == i
      {
        if opens(i) {
          pool := pool + [next];
          next := next + 1;
        }
      }
    }

    /** The end of `connection()`, after a rollback that went well or not. */
    method Release(c: Conn, rolledBack: bool)
      modifies this`pool, this`shut
      ensures forall users :: Seen(users) == if rolledBack then GiveBack(old(Seen(users)), c)
                                             else old(Seen(users)).(shut := old(shut) + {c})
    {
      if rolledBack && !closed && |pool| < size {
        pool := pool + [c];
      } else {
        shut := shut + {c};
      }
    }

    /** close() when nobody borrows meanwhile: what was pooled is closed, once. */
    method Close()
      modifies this`pool, this`shut, this`closed
      ensures closed && (!old(closed) ==> pool == [] && shut == old(shut) + set c | c in old(pool))
      ensures old(closed) ==> pool == old(pool) && shut == old(shut)
    {
      if closed { return; }
      closed := true;
      ghost var n := 0;
      while pool != []
        invariant closed && n <= |old(pool)| && pool == old(pool)[n..]
        invariant shut == old(shut) + set c | c in old(pool)[..n]
        decreases |pool|
      {
        var c := pool[0];
        pool := pool[1..];
        shut := shut + {c};
        n := n + 1;
        assert old(pool)[..n] == old(pool)[..n - 1] + [c];
      }
      assert old(pool)[..n] == old(pool);
    }
  }
}
