/** The job table of netpulse/server.py: submit_job, the worker's end, and prune_jobs. */
module Jobs {

  type Id = nat

  datatype Job = Running(started: real) | Over(started: real, finished: real, ok: bool)

  const SLOTS: nat := 64
  const KEPT: nat := 1024

  type Table = map<Id, Job>

  function When(j: Job): real { if j.Over? then j.finished else j.started }

  function RunningIds(t: Table): set<Id> { set id | id in t && t[id].Running? }

  /** The table without what ended before the cutoff. */
  function Unexpired(t: Table, cutoff: real): Table
  {
    map id | id in t && (t[id].Running? || When(t[id]) >= cutoff) :: t[id]
  }

  /** `after` is a part of `before`: what is missing had ended, and had ended before whatever ended and stays. */
  predicate OldestGone(before: Table, after: Table)
  {
    && (forall id <- after :: id in before && after[id] == before[id])
    && (forall e <- before :: e !in after ==>
        before[e].Over? && forall k <- after :: (after[k].Over? ==> When(before[e]) <= When(after[k])))
  }

  /** The oldest that ended go, down to 1024 entries or until none is left that ended. */
  predicate Evicted(fit: Table, after: Table)
  {
    && OldestGone(fit, after)
    && (|fit| <= KEPT ==> after == fit)
    && (|fit| > KEPT ==> |after| >= KEPT && (|after| == KEPT || forall id <- after :: after[id].Running?))
  }

  /** prune_jobs: the expired go, then the oldest. */
  predicate Pruned(before: Table, after: Table, cutoff: real)
  {
    Evicted(Unexpired(before, cutoff), after)
  }

  // ---------- counting ----------

  lemma {:induction false} SubsetCard<T>(a: set<T>, b: set<T>)
    requires a <= b
    ensures |a| <= |b|
    ensures |a| == |b| ==> a == b
  {
    if a != {} {
      var x :| x in a;
      SubsetCard(a - {x}, b - {x});
    }
  }

  /** Pruning keeps every running job, and leaves at most 1024 entries unless more than that run. */
  lemma PruningBounds(before: Table, after: Table, cutoff: real)
    requires Pruned(before, after, cutoff)
    ensures RunningIds(after) == RunningIds(before)
    ensures forall id <- after :: id in before && after[id] == before[id]
    ensures |after| <= KEPT || after.Keys == RunningIds(before)
  {
    var fit := Unexpired(before, cutoff);
    assert RunningIds(fit) == RunningIds(before);
    forall id | id in RunningIds(fit) ensures id in after && after[id].Running? {
    }
    assert RunningIds(after) == RunningIds(fit);
    if |after| > KEPT && |fit| > KEPT {
      assert forall id <- after :: after[id].Running?;
      assert after.Keys == RunningIds(after);
    }
  }

  /**
   What a pruning takes: every job that ended before the cutoff; of the others, only ones that ended, and only down to
   1024 entries, none before one that ended earlier and stays.
   */
  lemma PruningTakes(before: Table, after: Table, cutoff: real, id: Id)
    requires Pruned(before, after, cutoff) && id in before
    ensures before[id].Over? && before[id].finished < cutoff ==> id !in after
    ensures before[id].Running? ==> id in after && after[id] == before[id]
    ensures before[id].Over? && before[id].finished >= cutoff && id !in after ==>
              |after| >= 1024
              && forall k <- after :: (after[k].Over? ==> before[id].finished <= after[k].finished)
  {
    var fit := Unexpired(before, cutoff);
    assert id in fit <==> !(before[id].Over? && before[id].finished < cutoff);
  }

  // ---------- the code ----------

  predicate Sorted(s: seq<Id>, t: Table)
    requires forall id <- s :: id in t
  {
    forall i, j :: 0 <= i < j < |s| ==> When(t[s[i]]) <= When(t[s[j]])
  }

  ghost predicate Lists(s: seq<Id>, ids: set<Id>)
  {
    (forall i, j :: 0 <= i < j < |s| ==> s[i] != s[j]) && forall id :: id in s <==> id in ids
  }

  /** sorted(...) by the time of the end */
  method SortByEnd(ids: set<Id>, t: Table) returns (s: seq<Id>)
    requires ids <= t.Keys
    ensures Lists(s, ids) && Sorted(s, t)
  {
    s := [];
    var todo := ids;
    while todo != {}
      invariant todo <= ids && Lists(s, ids - todo) && Sorted(s, t)
      decreases todo
    {
      var x :| x in todo;
      s := InsertByEnd(s, x, t, ids - todo);
      assert ids - (todo - {x}) == (ids - todo) + {x};
      todo := todo - {x};
    }
  }

  method InsertByEnd(s: seq<Id>, x: Id, t: Table, ghost ids: set<Id>) returns (r: seq<Id>)
    requires x in t && x !in ids && ids <= t.Keys && Lists(s, ids) && Sorted(s, t)
    ensures Lists(r, ids + {x}) && Sorted(r, t)
  {
    var i := |s|;
    while i > 0 && When(t[s[i - 1]]) > When(t[x])
      invariant 0 <= i <= |s| && forall k :: i <= k < |s| ==> When(t[s[k]]) > When(t[x])
    {
      i := i - 1;
    }
    r := s[..i] + [x] + s[i..];
    Inserted(s, i, x, r, t, ids);
  }

  lemma Inserted(s: seq<Id>, i: nat, x: Id, r: seq<Id>, t: Table, ids: set<Id>)
    requires x in t && x !in ids && ids <= t.Keys && Lists(s, ids) && Sorted(s, t)
    requires i <= |s| && r == s[..i] + [x] + s[i..]
    requires (forall k :: i <= k < |s| ==> When(t[s[k]]) > When(t[x])) && (i > 0 ==> When(t[s[i - 1]]) <= When(t[x]))
    ensures Lists(r, ids + {x}) && Sorted(r, t)
  {
    hide *;
    InsertedMembers(s, i, x, ids);
    forall j: nat, k: nat | j < k < |r|
      ensures r[j] in t && r[k] in t && r[j] != r[k] && When(t[r[j]]) <= When(t[r[k]])
    {
      InsertedPair(s, i, x, r, t, ids, j, k);
    }
    Conclude(r, ids + {x}, t);
  }

  lemma InsertedMembers(s: seq<Id>, i: nat, x: Id, ids: set<Id>)
    requires i <= |s| && Lists(s, ids)
    ensures forall id :: id in s[..i] + [x] + s[i..] <==> id in ids + {x}
  {
    assert s == s[..i] + s[i..];
  }

  lemma Conclude(r: seq<Id>, ids: set<Id>, t: Table)
    requires forall id :: id in r <==> id in ids
    requires ids <= t.Keys
    requires forall j, k :: 0 <= j < k < |r| ==> r[j] != r[k] && When(t[r[j]]) <= When(t[r[k]])
    ensures Lists(r, ids) && Sorted(r, t)
  {
  }

  lemma InsertedPair(s: seq<Id>, i: nat, x: Id, r: seq<Id>, t: Table, ids: set<Id>, j: nat, k: nat)
    requires x in t && x !in ids && ids <= t.Keys && Lists(s, ids) && Sorted(s, t)
    requires i <= |s| && r == s[..i] + [x] + s[i..] && j < k < |r|
    requires (forall m :: i <= m < |s| ==> When(t[s[m]]) > When(t[x])) && (i > 0 ==> When(t[s[i - 1]]) <= When(t[x]))
    ensures r[j] in t && r[k] in t && r[j] != r[k] && When(t[r[j]]) <= When(t[r[k]])
  {
    hide When;
    if k < i {
      assert r[j] == s[j] && r[k] == s[k];
    } else if j < i {
      assert r[j] == s[j];
      assert j == i - 1 || When(t[s[j]]) <= When(t[s[i - 1]]);
      if k > i { assert r[k] == s[k - 1]; }
    } else if j == i {
      assert r[j] == x && r[k] == s[k - 1];
    } else {
      assert r[j] == s[j - 1] && r[k] == s[k - 1];
    }
  }

  datatype Submitted = Accepted | Busy | Failed

  class JobTable {
    var jobs: Table
    /** Slots of JOB_SLOTS that are taken. */
    var held: nat

    /** submit_job when no other thread runs meanwhile; `queues` says whether the worker pool takes the job. */
    method SubmitJob(id: Id, now: real, queues: bool) returns (r: Submitted)
      requires id !in jobs
      modifies this
      ensures r == if old(held) >= SLOTS then Busy else if queues then Accepted else Failed
      ensures r.Busy? ==> jobs == old(jobs) && held == old(held)
      ensures r.Failed? ==> Pruned(old(jobs), jobs, now - 1800.0) && held == old(held)
      ensures r.Accepted? ==> id in jobs && jobs[id] == Running(now) && Pruned(old(jobs), jobs - {id}, now - 1800.0)
                              && held == old(held) + 1
    {
      if held >= SLOTS { return Busy; }
      held := held + 1;
      Prune(now - 1800.0);
      ghost var kept := jobs;
      jobs := jobs[id := Running(now)];
      PruningBounds(old(jobs), kept, now - 1800.0);
      assert jobs - {id} == kept;
      if !queues {
        jobs := jobs - {id};
        held := held - 1;
        return Failed;
      }
      return Accepted;
    }

    /** prune_jobs */
    method Prune(cutoff: real)
      modifies this`jobs
      ensures Pruned(old(jobs), jobs, cutoff)
    {
      Expire(cutoff);
      Evict();
    }

    method Expire(cutoff: real)
      modifies this`jobs
      ensures jobs == Unexpired(old(jobs), cutoff)
    {
      var todo := jobs.Keys;
      while todo != {}
        invariant todo <= jobs.Keys <= old(jobs.Keys)
        invariant forall id <- jobs :: jobs[id] == old(jobs)[id]
        invariant forall id <- old(jobs) :: id in jobs <==> id in todo || id in Unexpired(old(jobs), cutoff)
        decreases todo
      {
        var id :| id in todo;
        todo := todo - {id};
        if !jobs[id].Running? && When(jobs[id]) < cutoff { jobs := jobs - {id}; }
      }
    }

    method Evict()
      modifies this`jobs
      ensures Evicted(old(jobs), jobs)
    {
      ghost var fit := jobs;
      var over := set id | id in jobs && jobs[id].Over?;
      var completed := SortByEnd(over, jobs);
      var n := if |jobs| > KEPT then |jobs| - KEPT else 0;
      if n > |completed| { n := |completed|; }
      for i := 0 to n
        invariant jobs == Without(fit, completed[..i]) && |jobs| == |fit| - i
      {
        assert completed[i] !in completed[..i] && completed[i] in over;
        assert completed[..i + 1] == completed[..i] + [completed[i]];
        RemoveOne(jobs, completed[i]);
        jobs := jobs - {completed[i]};
      }
      OldestAreGone(fit, completed, n, jobs);
    }
  }

  /** The table without some entries. */
  function Without(t: Table, ids: seq<Id>): Table { map id | id in t && id !in ids :: t[id] }

  lemma RemoveOne(t: Table, id: Id)
    requires id in t
    ensures |t - {id}| == |t| - 1
  {
    assert (t - {id}).Keys == t.Keys - {id};
    assert |t.Keys| == |t| && |(t - {id}).Keys| == |t - {id}|;
  }

  lemma OldestAreGone(fit: Table, completed: seq<Id>, n: nat, after: Table)
    requires Lists(completed, set id | id in fit && fit[id].Over? :: id) && Sorted(completed, fit)
    requires n <= |completed| && after == Without(fit, completed[..n]) && |after| == |fit| - n
    requires var m := if |fit| > KEPT then |fit| - KEPT else 0; n == if m > |completed| then |completed| else m
    ensures Evicted(fit, after)
  {
    hide When, Sorted;
    assert forall e :: e in completed[..n] ==> e in completed;
    forall e, k | e in fit && e !in after && k in after && after[k].Over? ensures When(fit[e]) <= When(after[k]) {
      GoneBefore(fit, completed, n, e, k);
    }
    if n == |completed| { assert completed[..n] == completed; }
  }

  lemma GoneBefore(fit: Table, completed: seq<Id>, n: nat, e: Id, k: Id)
    requires Lists(completed, set id | id in fit && fit[id].Over? :: id) && Sorted(completed, fit)
    requires n <= |completed| && e in completed[..n] && k in fit && fit[k].Over? && k !in completed[..n]
    ensures When(fit[e]) <= When(fit[k])
  {
    hide When;
    var i := IndexIn(completed[..n], e);
    var j := IndexIn(completed, k);
    assert forall m :: 0 <= m < n ==> completed[m] in completed[..n];
    assert completed[i] == e;
  }

  lemma IndexIn(s: seq<Id>, id: Id) returns (i: nat)
    requires id in s
    ensures i < |s| && s[i] == id
  {
    i :| i < |s| && s[i] == id;
  }

  // ---------- jobs on their way ----------

  /** Where a job is that holds a slot; a name is taken for as long as it holds one or is listed. */
  datatype Phase = Claimed | Listed | Refused | Withdrawn | Queued | Reported

  datatype World = World(jobs: Table, flights: map<Id, Phase>, held: nat)

  datatype Step =
    | Acquire(id: Id)
    | Insert(id: Id, started: real, cutoff: real, kept: Table)
    | Submit(id: Id, ok: bool)
    | Withdraw(id: Id)
    | Report(id: Id, ok: bool, finished: real)
    | Release(id: Id)

  predicate Is(w: World, id: Id, p: Phase) { id in w.flights && w.flights[id] == p }

  predicate Enabled(w: World, s: Step)
  {
    match s
    case Acquire(id) => w.held < SLOTS && id !in w.flights && id !in w.jobs
    case Insert(id, _, cutoff, kept) => Is(w, id, Claimed) && Pruned(w.jobs, kept, cutoff)
    case Submit(id, _) => Is(w, id, Listed)
    case Withdraw(id) => Is(w, id, Refused)
    case Report(id, _, _) => Is(w, id, Queued) && id in w.jobs
    case Release(id) => (Is(w, id, Reported) || Is(w, id, Withdrawn)) && w.held > 0
  }

  function Move(w: World, id: Id, p: Phase): World { w.(flights := w.flights[id := p]) }

  function After(w: World, s: Step): World
    requires Enabled(w, s)
  {
    match s
    case Acquire(id) => Move(w, id, Claimed).(held := w.held + 1)
    case Insert(id, started, _, kept) => Move(w, id, Listed).(jobs := kept[id := Running(started)])
    case Submit(id, ok) => Move(w, id, if ok then Queued else Refused)
    case Withdraw(id) => Move(w, id, Withdrawn).(jobs := w.jobs - {id})
    case Report(id, ok, finished) =>
      Move(w, id, Reported).(jobs := w.jobs[id := Over(w.jobs[id].started, finished, ok)])
    case Release(id) => w.(flights := w.flights - {id}, held := w.held - 1)
  }

  predicate InTable(p: Phase) { p == Listed || p == Refused || p == Queued }

  function TabledIds(flights: map<Id, Phase>): set<Id> { set id | id in flights && InTable(flights[id]) }

  predicate Inv(w: World)
  {
    && w.held == |w.flights| <= SLOTS && |w.jobs| <= KEPT + 1
    && RunningIds(w.jobs) == TabledIds(w.flights)
    && forall id <- w.flights :: w.flights[id] == Claimed || w.flights[id] == Withdrawn ==> id !in w.jobs
  }

  lemma RunningHold(w: World)
    requires Inv(w)
    ensures |RunningIds(w.jobs)| <= w.held
  {
    assert RunningIds(w.jobs) <= w.flights.Keys;
    SubsetCard(RunningIds(w.jobs), w.flights.Keys);
    assert |w.flights.Keys| == |w.flights|;
  }

  lemma TableAfterInsert(jobs: Table, id: Id, started: real, cutoff: real, kept: Table)
    requires Pruned(jobs, kept, cutoff) && id !in jobs && |RunningIds(jobs)| <= KEPT
    ensures RunningIds(kept[id := Running(started)]) == RunningIds(jobs) + {id}
    ensures |kept[id := Running(started)]| <= KEPT + 1 && kept.Keys <= jobs.Keys
  {
    PruningBounds(jobs, kept, cutoff);
    hide Pruned;
    assert |kept.Keys| == |kept|;
    assert id !in kept;
  }

  lemma InsertKeepsInv(w: World, id: Id, started: real, cutoff: real, kept: Table)
    requires Inv(w) && Is(w, id, Claimed) && Pruned(w.jobs, kept, cutoff)
    ensures Inv(After(w, Insert(id, started, cutoff, kept)))
  {
    RunningHold(w);
    TableAfterInsert(w.jobs, id, started, cutoff, kept);
    FlightListed(w.flights, id);
    hide Pruned, RunningIds, TabledIds;
    var w' := After(w, Insert(id, started, cutoff, kept));
    assert w'.flights == w.flights[id := Listed] && w'.jobs == kept[id := Running(started)] && w'.held == w.held;
  }

  lemma FlightListed(flights: map<Id, Phase>, id: Id)
    requires id in flights
    ensures TabledIds(flights[id := Listed]) == TabledIds(flights) + {id} && |flights[id := Listed]| == |flights|
  {
    assert flights[id := Listed].Keys == flights.Keys && |flights[id := Listed].Keys| == |flights[id := Listed]|
           && |flights.Keys| == |flights|;
  }

  lemma ReportKeepsInv(w: World, id: Id, ok: bool, finished: real)
    requires Inv(w) && Enabled(w, Report(id, ok, finished))
    ensures Inv(After(w, Report(id, ok, finished)))
  {
    var w' := After(w, Report(id, ok, finished));
    assert w'.flights.Keys == w.flights.Keys && |w'.flights.Keys| == |w'.flights| && |w.flights.Keys| == |w.flights|;
    assert w'.jobs.Keys == w.jobs.Keys && |w'.jobs.Keys| == |w'.jobs| && |w.jobs.Keys| == |w.jobs|;
    assert RunningIds(w'.jobs) == RunningIds(w.jobs) - {id};
  }

  lemma WithdrawKeepsInv(w: World, id: Id)
    requires Inv(w) && Is(w, id, Refused)
    ensures Inv(After(w, Withdraw(id)))
  {
    assert id in RunningIds(w.jobs);
    RemoveOne(w.jobs, id);
    assert RunningIds(w.jobs - {id}) == RunningIds(w.jobs) - {id};
  }

  lemma ReleaseKeepsInv(w: World, id: Id)
    requires Inv(w) && Enabled(w, Release(id))
    ensures Inv(After(w, Release(id)))
  {
    assert (w.flights - {id}).Keys == w.flights.Keys - {id};
    assert |w.flights.Keys| == |w.flights| && |(w.flights - {id}).Keys| == |w.flights - {id}|;
  }

  lemma StepKeepsInv(w: World, s: Step)
    requires Inv(w) && Enabled(w, s)
    ensures Inv(After(w, s))
  {
    hide Pruned;
    match s
    case Acquire(id) =>
    case Insert(id, started, cutoff, kept) => InsertKeepsInv(w, id, started, cutoff, kept);
    case Submit(id, ok) =>
    case Withdraw(id) => WithdrawKeepsInv(w, id);
    case Report(id, ok, finished) => ReportKeepsInv(w, id, ok, finished);
    case Release(id) => ReleaseKeepsInv(w, id);
  }

  /** The world after some steps; one that cannot happen does nothing. */
  function Run(steps: seq<Step>): World
  {
    if steps == [] then World(map[], map[], 0)
    else
      var w, s := Run(steps[..|steps| - 1]), steps[|steps| - 1];
      if Enabled(w, s) then After(w, s) else w
  }

  /**
   In every interleaving: running jobs never exceed held slots, held slots never exceed 64, and the
   table never exceeds 1025 entries.
   */
  lemma {:induction false} EveryRun(steps: seq<Step>)
    ensures Inv(Run(steps))
    ensures |RunningIds(Run(steps).jobs)| <= Run(steps).held <= 64 && |Run(steps).jobs| <= 1025
  {
    if steps != [] {
      var w, s := Run(steps[..|steps| - 1]), steps[|steps| - 1];
      EveryRun(steps[..|steps| - 1]);
      if Enabled(w, s) { StepKeepsInv(w, s); }
    }
    RunningHold(Run(steps));
  }

  datatype Kind = Takes | Withdraws | Reports | GivesBack | Else

  function KindOf(s: Step): Kind
  {
    match s
    case Acquire(_) => Takes
    case Withdraw(_) => Withdraws
    case Report(_, _, _) => Reports
    case Release(_) => GivesBack
    case _ => Else
  }

  /** How often a kind of step took place for one job. */
  function Times(steps: seq<Step>, id: Id, kind: Kind): nat
  {
    if steps == [] then 0
    else
      var init, s := steps[..|steps| - 1], steps[|steps| - 1];
      Times(init, id, kind) + if Enabled(Run(init), s) && s.id == id && KindOf(s) == kind then 1 else 0
  }

  /** Each slot taken for a job is given back once, after the job was reported over or withdrawn, once. */
  lemma {:induction false} SlotsReleasedOnce(steps: seq<Step>, id: Id)
    ensures Times(steps, id, Takes) == Times(steps, id, GivesBack) + if id in Run(steps).flights then 1 else 0
    ensures Times(steps, id, Withdraws) + Times(steps, id, Reports)
            == Times(steps, id, GivesBack)
               + if Is(Run(steps), id, Reported) || Is(Run(steps), id, Withdrawn) then 1 else 0
  {
    hide Pruned;
    if steps != [] {
      SlotsReleasedOnce(steps[..|steps| - 1], id);
    }
  }

  /** What the table says of a job is what its own steps said: when it was listed, how it ended, and when. */
  predicate Explained(steps: seq<Step>, id: Id, job: Job)
  {
    && (exists s <- steps :: s.Insert? && s.id == id && s.started == job.started)
    && (job.Over? ==> Report(id, job.ok, job.finished) in steps)
  }

  lemma {:induction false} TableIsExplained(steps: seq<Step>, id: Id)
    requires id in Run(steps).jobs
    ensures Explained(steps, id, Run(steps).jobs[id])
  {
    hide Pruned;
    assert steps != [];
    var init, s := steps[..|steps| - 1], steps[|steps| - 1];
    var w := Run(init);
    assert steps == init + [s];
    if Enabled(w, s) && s.Insert? && s.id != id { PruningBounds(w.jobs, s.kept, s.cutoff); }
    if id in w.jobs {
      TableIsExplained(init, id);
      assert Explained(steps, id, w.jobs[id]);
    }
    if Enabled(w, s) && s.Insert? && s.id == id { assert s in steps; }
  }

  /** A listed job can always go on to give its slot back. */
  lemma JobsProgress(w: World, id: Id)
    requires Inv(w) && id in w.flights && w.flights[id] != Claimed
    ensures exists s: Step :: !s.Acquire? && s.id == id && Enabled(w, s)
  {
    assert |w.flights.Keys| == |w.flights| && w.flights.Keys != {};
    if InTable(w.flights[id]) { assert id in RunningIds(w.jobs); }
    var s := match w.flights[id]
             case Listed => Submit(id, true)
             case Refused => Withdraw(id)
             case Queued => Report(id, true, 0.0)
             case _ => Release(id);
    assert Enabled(w, s);
  }

  /** Only finished jobs leave the table other than by withdrawal, and never before one that ended earlier and stays. */
  lemma EvictionIsFair(w: World, s: Step, gone: Id, kept: Id)
    requires Inv(w) && Enabled(w, s) && s.Insert?
    requires gone in w.jobs && gone !in After(w, s).jobs && kept in w.jobs && kept in After(w, s).jobs
    ensures w.jobs[gone].Over?
          && (w.jobs[kept].Over? ==> w.jobs[gone].finished < s.cutoff || w.jobs[gone].finished <= w.jobs[kept].finished)
  {
    hide Evicted;
    PruningBounds(w.jobs, s.kept, s.cutoff);
    assert gone !in RunningIds(s.kept) && kept != s.id && kept in s.kept;
    if gone in Unexpired(w.jobs, s.cutoff) { EvictedFairly(Unexpired(w.jobs, s.cutoff), s.kept, gone, kept); }
  }

  lemma EvictedFairly(fit: Table, after: Table, gone: Id, kept: Id)
    requires Evicted(fit, after) && gone in fit && gone !in after && kept in after
    ensures kept in fit && after[kept] == fit[kept] && (fit[kept].Over? ==> When(fit[gone]) <= When(fit[kept]))
  {
  }
}
