/**
 The request/response part of MeshClient in netpulse/mesh.py: threads that call, one thread that
 receives, and the loss of the link.  Each step is what one thread does without yielding.
 */
module MeshRpc {
  import opened Wrappers

  type Label = nat

  datatype Data = Null | Value(text: string)

  /** The state dict of a pending call. */
  datatype Slot = Slot(result: Option<Data>, error: Option<string>)

  datatype Packet = Response(id: Label, data: Data) | Failure(id: Label, message: string) | Other(id: Label)

  datatype Outcome = Returned(data: Data) | Raised(message: string) | SendFailed | TimedOut

  /** Where a call is: told the link is up, registered, waiting, woken, out of patience, over. */
  datatype Phase = Admitted | Registered | Waiting | Woken | Quitting | Ended(outcome: Outcome)

  /** _resolve_all: the iteration over the dict as it was, then the clearing. */
  datatype Loss = Quiet | Marking(start: set<Label>, marked: set<Label>) | Clearing

  datatype World = World(connected: bool, pending: map<Label, Slot>, fired: set<Label>, calls: map<Label, Phase>,
                         loss: Loss)

  datatype Step =
    | Admit(id: Label)
    | Register(id: Label)
    | Send(id: Label, ok: bool)
    | Wake(id: Label)
    | GiveUp(id: Label)
    | Forget(id: Label)
    | Finish(id: Label)
    | Receive(packet: Packet)
    | Connect
    | Lose
    | Mark(id: Label)
    | EndOfDict
    | Abort
    | Clear

  const LINK_LOST := "link lost"
  const RPC_ERROR := "rpc error"
  const EMPTY: World := World(false, map[], {}, map[], Quiet)
  const FRESH: Slot := Slot(None, None)

  predicate At(w: World, l: Label, p: Phase) { l in w.calls && w.calls[l] == p }

  /** Whether a step can happen. */
  predicate Enabled(w: World, s: Step)
  {
    match s
    case Admit(l) => l !in w.calls && w.connected
    case Register(l) => At(w, l, Admitted)
    case Send(l, _) => At(w, l, Registered)
    case Wake(l) => At(w, l, Waiting) && l in w.fired
    case GiveUp(l) => At(w, l, Waiting) && l !in w.fired
    case Forget(l) => At(w, l, Quitting)
    case Finish(l) => At(w, l, Woken)
    case Receive(_) => w.connected
    case Connect => !w.connected && w.loss == Quiet
    case Lose => w.connected
    case Mark(l) => w.loss.Marking? && l in w.pending && l !in w.loss.marked && |w.pending| == |w.loss.start|
    case EndOfDict => w.loss.Marking? && |w.pending| == |w.loss.start| && w.loss.start * w.pending.Keys <= w.loss.marked
    case Abort => w.loss.Marking? && |w.pending| != |w.loss.start|
    case Clear => w.loss == Clearing
  }

  /** _resolve on the slot and the event of a call that is still registered. */
  function Resolved(w: World, l: Label, slot: Slot): World
  {
    w.(pending := w.pending[l := slot], fired := w.fired + {l})
  }

  /** _on_pack */
  function OnPack(w: World, p: Packet): World
  {
    if p.Other? || p.id !in w.pending then w
    else if p.Response? then Resolved(w, p.id, w.pending[p.id].(result := Some(p.data)))
    else Resolved(w, p.id, w.pending[p.id].(error := Some(if p.message == "" then RPC_ERROR else p.message)))
  }

  function Move(w: World, l: Label, p: Phase): World { w.(calls := w.calls[l := p]) }

  function Pop(w: World, l: Label): World { w.(pending := w.pending - {l}) }

  /** What a woken call makes of the slot it pops; an empty one when there is none any more. */
  function Verdict(w: World, l: Label): Outcome
  {
    var slot := if l in w.pending then w.pending[l] else FRESH;
    if slot.error.Some? then Raised(slot.error.value)
    else Returned(if slot.result.Some? then slot.result.value else Null)
  }

  function After(w: World, s: Step): World
  {
    match s
    case Admit(l) => Move(w, l, Admitted)
    case Register(l) => Move(w, l, Registered).(pending := w.pending[l := FRESH], fired := w.fired - {l})
    case Send(l, ok) => if ok then Move(w, l, Waiting) else Move(Pop(w, l), l, Ended(SendFailed))
    case Wake(l) => Move(w, l, Woken)
    case GiveUp(l) => Move(w, l, Quitting)
    case Forget(l) => Move(Pop(w, l), l, Ended(TimedOut))
    case Finish(l) => Move(Pop(w, l), l, Ended(Verdict(w, l)))
    case Receive(p) => OnPack(w, p)
    case Connect => w.(connected := true)
    case Lose => w.(connected := false, loss := Marking(w.pending.Keys, {}))
    case Mark(l) =>
      if l in w.pending && w.loss.Marking?
      then Resolved(w, l, w.pending[l].(error := Some(LINK_LOST))).(loss := w.loss.(marked := w.loss.marked + {l}))
      else w
    case EndOfDict => w.(loss := Clearing)
    case Abort => w.(loss := Quiet)
    case Clear => w.(pending := map[], loss := Quiet)
  }

  function Run(steps: seq<Step>): World
  {
    if steps == [] then EMPTY else After(Run(steps[..|steps| - 1]), steps[|steps| - 1])
  }

  predicate Legal(steps: seq<Step>)
  {
    steps == [] || (Legal(steps[..|steps| - 1]) && Enabled(Run(steps[..|steps| - 1]), steps[|steps| - 1]))
  }

  /** Whose thread takes a step; the others belong to the receiver. */
  function Owner(s: Step): Option<Label>
  {
    match s
    case Admit(l) => Some(l)
    case Register(l) => Some(l)
    case Send(l, _) => Some(l)
    case Wake(l) => Some(l)
    case GiveUp(l) => Some(l)
    case Forget(l) => Some(l)
    case Finish(l) => Some(l)
    case _ => None
  }

  // ---------- where outcomes come from ----------

  /** A packet that arrived after the call registered. */
  predicate Heard(steps: seq<Step>, l: Label, p: Packet)
  {
    exists i, j :: 0 <= i < j < |steps| && steps[i] == Register(l) && steps[j] == Receive(p)
  }

  /** The link was lost, and _resolve_all reached the call, after it registered. */
  predicate LostAfter(steps: seq<Step>, l: Label)
  {
    exists i, j :: 0 <= i < j < |steps| && steps[i] == Register(l) && (steps[j] == Mark(l) || steps[j] == Clear)
  }

  predicate HasRegistered(steps: seq<Step>, l: Label) { Register(l) in steps }

  predicate ErrorExplained(steps: seq<Step>, l: Label, e: string)
  {
    Heard(steps, l, Failure(l, e)) || (e == RPC_ERROR && Heard(steps, l, Failure(l, "")))
        || (e == LINK_LOST && LostAfter(steps, l))
  }

  predicate SlotExplained(steps: seq<Step>, l: Label, slot: Slot)
  {
    && (slot.result.Some? ==> Heard(steps, l, Response(l, slot.result.value)))
    && (slot.error.Some? ==> ErrorExplained(steps, l, slot.error.value))
  }

  predicate OutcomeExplained(steps: seq<Step>, l: Label, o: Outcome)
  {
    match o
    case Returned(d) => Heard(steps, l, Response(l, d)) || (d == Null && LostAfter(steps, l))
    case Raised(e) => ErrorExplained(steps, l, e)
    case SendFailed => Send(l, false) in steps
    case TimedOut => GiveUp(l) in steps
  }

  /** One call in a world reached by some steps. */
  predicate CallFacts(steps: seq<Step>, w: World, l: Label)
  {
    && (l in w.pending ==> l in w.calls && !w.calls[l].Ended? && w.calls[l] != Admitted)
    && (l in w.pending ==> SlotExplained(steps, l, w.pending[l]) && (l in w.fired ==> w.pending[l] != FRESH))
    && (l in w.calls && w.calls[l] != Admitted ==> HasRegistered(steps, l))
    && (l in w.calls && w.calls[l] != Admitted && !w.calls[l].Ended? && l !in w.pending ==> LostAfter(steps, l))
    && (At(w, l, Woken) ==> l in w.fired)
    && (At(w, l, Quitting) ==> GiveUp(l) in steps)
    && (l in w.calls && w.calls[l].Ended? ==> OutcomeExplained(steps, l, w.calls[l].outcome))
  }

  lemma Longer(steps: seq<Step>, s: Step, l: Label)
    ensures forall p :: Heard(steps, l, p) ==> Heard(steps + [s], l, p)
    ensures LostAfter(steps, l) ==> LostAfter(steps + [s], l)
    ensures forall e :: ErrorExplained(steps, l, e) ==> ErrorExplained(steps + [s], l, e)
    ensures HasRegistered(steps, l) ==> HasRegistered(steps + [s], l)
    ensures forall t :: t in steps ==> t in steps + [s]
  {
    var more := steps + [s];
    forall p | Heard(steps, l, p) ensures Heard(more, l, p) {
      var i, j :| 0 <= i < j < |steps| && steps[i] == Register(l) && steps[j] == Receive(p);
      assert more[i] == Register(l) && more[j] == Receive(p);
    }
    if LostAfter(steps, l) {
      var i, j :| 0 <= i < j < |steps| && steps[i] == Register(l) && (steps[j] == Mark(l) || steps[j] == Clear);
      assert more[i] == Register(l) && (more[j] == Mark(l) || more[j] == Clear);
    }
  }

  /** The last step, seen after the registration of a call. */
  lemma LastStep(steps: seq<Step>, s: Step, l: Label)
    requires HasRegistered(steps, l)
    ensures s.Receive? ==> Heard(steps + [s], l, s.packet)
    ensures s == Mark(l) || s == Clear ==> LostAfter(steps + [s], l)
  {
    var i :| 0 <= i < |steps| && steps[i] == Register(l);
    assert (steps + [s])[i] == Register(l) && (steps + [s])[|steps|] == s;
  }

  lemma FactsGrow(steps: seq<Step>, s: Step, w: World, l: Label)
    requires CallFacts(steps, w, l)
    ensures CallFacts(steps + [s], w, l)
  {
    hide Heard, LostAfter, ErrorExplained, HasRegistered;
    Longer(steps, s, l);
  }

  lemma OwnStepKeeps(steps: seq<Step>, w: World, s: Step, l: Label)
    requires Enabled(w, s) && CallFacts(steps, w, l) && s in steps && Owner(s) == Some(l)
    ensures CallFacts(steps, After(w, s), l)
  {
    hide Heard, LostAfter, ErrorExplained;
  }

  lemma OtherStepKeeps(steps: seq<Step>, w: World, s: Step, l: Label)
    requires CallFacts(steps, w, l) && Owner(s) != Some(l)
    requires l in w.pending ==>
             (s.Receive? ==> Heard(steps, l, s.packet)) && (s == Mark(l) || s == Clear ==> LostAfter(steps, l))
    ensures CallFacts(steps, After(w, s), l)
  {
    hide Heard, LostAfter;
    if s.Receive? && s.packet.id != l {
      PacketTouchesOne(w, s.packet, l);
    }
  }

  lemma StepKeepsFacts(steps: seq<Step>, s: Step, l: Label)
    requires Enabled(Run(steps), s) && CallFacts(steps, Run(steps), l)
    ensures CallFacts(steps + [s], After(Run(steps), s), l)
  {
    var w, more := Run(steps), steps + [s];
    FactsGrow(steps, s, w, l);
    if l in w.pending {
      LastStep(steps, s, l);
    }
    hide *;
    assert more[|steps|] == s;
    if Owner(s) == Some(l) { OwnStepKeeps(more, w, s, l); } else { OtherStepKeeps(more, w, s, l); }
  }

  /** In every interleaving, for every call: its outcome and its slot are explained by its own packets. */
  lemma {:induction false} Provenance(steps: seq<Step>, l: Label)
    requires Legal(steps)
    ensures CallFacts(steps, Run(steps), l)
  {
    if steps != [] {
      var init := steps[..|steps| - 1];
      Provenance(init, l);
      StepKeepsFacts(init, steps[|steps| - 1], l);
      assert init + [steps[|steps| - 1]] == steps;
    }
  }

  /** A call that is over has left _pending. */
  lemma EndedIsNotPending(steps: seq<Step>, l: Label)
    requires Legal(steps) && l in Run(steps).calls && Run(steps).calls[l].Ended?
    ensures l !in Run(steps).pending
  {
    Provenance(steps, l);
  }

  /** An error, or data of a response to the call. */
  predicate PeerSaid(steps: seq<Step>, l: Label, o: Outcome)
  {
    (o.Returned? && Heard(steps, l, Response(l, o.data))) || (o.Raised? && ErrorExplained(steps, l, o.message))
  }

  /**
   A woken call whose slot is still there ends by an error, or by data of a response to itself; it
   ends with nothing exactly when the slot was cleared under it, which only the loss of the link does.
   */
  lemma WokenEnds(steps: seq<Step>, l: Label)
    requires Legal(steps) && At(Run(steps), l, Woken)
    ensures l in Run(steps).pending ==> PeerSaid(steps, l, Verdict(Run(steps), l))
    ensures l !in Run(steps).pending ==> Verdict(Run(steps), l) == Returned(Null) && LostAfter(steps, l)
  {
    hide Run, Heard, LostAfter;
    Provenance(steps, l);
  }

  // ---------- which packet decides ----------

  /** What a packet for a call that waits makes of it: its data, unless an error came before; or its error. */
  lemma PacketDecides(w: World, l: Label, p: Packet)
    requires At(w, l, Waiting) && l in w.pending && p.id == l && !p.Other?
    ensures var v := After(After(After(w, Receive(p)), Wake(l)), Finish(l));
            && Enabled(After(w, Receive(p)), Wake(l)) && Enabled(After(After(w, Receive(p)), Wake(l)), Finish(l))
            && l !in v.pending
            && At(v, l, Ended(if p.Failure? then Raised(if p.message == "" then "rpc error" else p.message)
                              else if w.pending[l].error.Some? then Raised(w.pending[l].error.value)
                              else Returned(p.data)))
  {
  }

  /** An error in the slot of a woken call goes before its data; a slot with neither returns nothing. */
  lemma ErrorWins(w: World, l: Label)
    requires At(w, l, Woken)
    ensures var o := After(w, Finish(l)).calls[l].outcome;
            if l !in w.pending then o == Returned(Null)
            else if w.pending[l].error.Some? then o == Raised(w.pending[l].error.value)
            else o == Returned(if w.pending[l].result.Some? then w.pending[l].result.value else Null)
  {
  }

  /** Whether the link is up: it came up and has not been lost since. */
  function LinkUp(steps: seq<Step>): bool
  {
    if steps == [] then false
    else
      var s := steps[|steps| - 1];
      if s == Connect then true else if s == Lose then false else LinkUp(steps[..|steps| - 1])
  }

  /** Calls are admitted, and packets come, only while the link is up. */
  lemma {:induction false} AdmittedWhileUp(steps: seq<Step>, s: Step)
    requires Legal(steps + [s])
    ensures Run(steps).connected <==> LinkUp(steps)
    ensures s.Admit? || s.Receive? ==> LinkUp(steps)
    decreases |steps|
  {
    assert (steps + [s])[..|steps|] == steps;
    LinkAfter(Run(steps), s);
    hide After, Enabled;
    if steps != [] {
      var init, last := steps[..|steps| - 1], steps[|steps| - 1];
      assert init + [last] == steps;
      AdmittedWhileUp(init, last);
      LinkAfter(Run(init), last);
    }
  }

  lemma LinkAfter(w: World, s: Step)
    ensures After(w, s).connected == (s == Connect || (s != Lose && w.connected))
    ensures Enabled(w, s) && (s.Admit? || s.Receive?) ==> w.connected
  {
  }

  // ---------- independence ----------

  /** A packet touches the call it names and no other, and that one only while it is pending. */
  lemma PacketTouchesOne(w: World, p: Packet, l: Label)
    ensures l != p.id ==> (l in OnPack(w, p).pending <==> l in w.pending)
                             && (l in w.pending ==> OnPack(w, p).pending[l] == w.pending[l])
                             && (l in OnPack(w, p).fired <==> l in w.fired)
    ensures OnPack(w, p).calls == w.calls
    ensures OnPack(w, p) == w <== p.id !in w.pending
    ensures p.id in w.pending && !p.Other? ==> p.id in OnPack(w, p).fired
  {
  }

  /** Once over, a call keeps its outcome for ever, and its label never comes back. */
  lemma {:induction false} EndedIsFinal(steps: seq<Step>, more: seq<Step>, l: Label)
    requires Legal(steps + more) && l in Run(steps).calls && Run(steps).calls[l].Ended?
    ensures l in Run(steps + more).calls && Run(steps + more).calls[l] == Run(steps).calls[l]
    ensures l !in Run(steps + more).pending
  {
    if more == [] {
      assert steps + more == steps;
      EndedIsNotPending(steps, l);
    } else {
      var init, s := more[..|more| - 1], more[|more| - 1];
      var before := steps + init;
      assert (steps + more)[..|steps + more| - 1] == before && (steps + more)[|steps + more| - 1] == s;
      EndedIsFinal(steps, init, l);
      var w := Run(before);
      assert Enabled(w, s) && Run(steps + more) == After(w, s);
      EndedIsNotPending(steps + more, l) by { hide Enabled; CallsProgress(w, s, l); }
      hide *;
      CallsProgress(w, s, l);
    }
  }

  // ---------- every call ends ----------

  function Rank(p: Phase): nat
  {
    match p
    case Admitted => 4
    case Registered => 3
    case Waiting => 2
    case Woken => 1
    case Quitting => 1
    case Ended(_) => 0
  }

  /** A call that is not over can always move. */
  lemma NeverStuck(w: World, l: Label)
    requires l in w.calls && !w.calls[l].Ended?
    ensures exists t :: Owner(t) == Some(l) && Enabled(w, t)
  {
    var t := match w.calls[l]
             case Admitted => Register(l)
             case Registered => Send(l, true)
             case Waiting => if l in w.fired then Wake(l) else GiveUp(l)
             case Woken => Finish(l)
             case Quitting => Forget(l)
             case Ended(_) => Clear;
    assert Owner(t) == Some(l) && Enabled(w, t);
  }

  /** Its own steps bring a call nearer its end, and no other step moves it. */
  lemma CallsProgress(w: World, s: Step, l: Label)
    requires l in w.calls
    ensures Enabled(w, s) && Owner(s) == Some(l) ==>
            l in After(w, s).calls && Rank(After(w, s).calls[l]) < Rank(w.calls[l])
    ensures Owner(s) != Some(l) ==> l in After(w, s).calls && After(w, s).calls[l] == w.calls[l]
  {
    hide Verdict;
  }

  function OwnSteps(steps: seq<Step>, l: Label): nat
  {
    if steps == [] then 0
    else OwnSteps(steps[..|steps| - 1], l) + if Owner(steps[|steps| - 1]) == Some(l) then 1 else 0
  }

  /** A call is over after at most five steps of its own thread, whatever the others do. */
  lemma {:induction false} EveryCallEnds(steps: seq<Step>, l: Label)
    requires Legal(steps)
    ensures l in Run(steps).calls ==> OwnSteps(steps, l) + Rank(Run(steps).calls[l]) <= 5
    ensures l !in Run(steps).calls ==> OwnSteps(steps, l) == 0
  {
    if steps != [] {
      var init, s := steps[..|steps| - 1], steps[|steps| - 1];
      EveryCallEnds(init, l);
      if l in Run(init).calls { CallsProgress(Run(init), s, l); }
    }
  }

  // ---------- the link goes down under a waiting call ----------

  function UntilMarked(l: Label): seq<Step> { [Connect, Admit(l), Register(l), Send(l, true), Lose, Mark(l)] }

  function WaitingWorld(l: Label): World { World(true, map[l := FRESH], {}, map[l := Waiting], Quiet) }

  function MarkedWorld(l: Label): World
  {
    World(false, map[l := Slot(None, Some(LINK_LOST))], {l}, map[l := Waiting], Marking({l}, {l}))
  }

  lemma ReachWaiting(l: Label)
    ensures Reaches([Connect, Admit(l), Register(l), Send(l, true)], WaitingWorld(l))
  {
    var none: seq<Step> := [];
    assert Reaches(none, EMPTY);
    hide Run, Legal;
    Extend(none, Connect, EMPTY);
    var w1 := After(EMPTY, Connect);
    Extend(none + [Connect], Admit(l), w1);
    var w2 := World(true, map[], {}, map[l := Admitted], Quiet);
    Extend(none + [Connect] + [Admit(l)], Register(l), w2);
    var w3 := World(true, map[l := FRESH], {}, map[l := Registered], Quiet);
    assert After(w2, Register(l)) == w3;
    Extend(none + [Connect] + [Admit(l)] + [Register(l)], Send(l, true), w3);
    assert none + [Connect] + [Admit(l)] + [Register(l)] + [Send(l, true)]
           == [Connect, Admit(l), Register(l), Send(l, true)];
  }

  lemma ReachMarked(l: Label)
    ensures Reaches(UntilMarked(l), MarkedWorld(l))
  {
    ReachWaiting(l);
    hide Run, Legal;
    var s4 := [Connect, Admit(l), Register(l), Send(l, true)];
    Extend(s4, Lose, WaitingWorld(l));
    var w5 := World(false, map[l := FRESH], {}, map[l := Waiting], Marking({l}, {}));
    assert WaitingWorld(l).pending.Keys == {l};
    assert After(WaitingWorld(l), Lose) == w5;
    Extend(s4 + [Lose], Mark(l), w5);
    assert s4 + [Lose] + [Mark(l)] == UntilMarked(l);
  }

  predicate Reaches(steps: seq<Step>, w: World) { Legal(steps) && Run(steps) == w }

  lemma Extend(steps: seq<Step>, s: Step, w: World)
    requires Reaches(steps, w) && Enabled(w, s)
    ensures Reaches(steps + [s], After(w, s))
  {
    assert (steps + [s])[..|steps|] == steps;
  }

  lemma RaisesEnd(l: Label, steps: seq<Step>, w: World)
    requires Reaches(steps, w) && w == MarkedWorld(l)
    ensures Legal(steps + [Wake(l), Finish(l), Abort])
            && At(Run(steps + [Wake(l), Finish(l), Abort]), l, Ended(Raised(LINK_LOST)))
  {
    hide Run, Legal;
    Extend(steps, Wake(l), w);
    var w7 := After(w, Wake(l));
    Extend(steps + [Wake(l)], Finish(l), w7);
    var w8 := After(w7, Finish(l));
    assert w8.pending == map[];
    Extend(steps + [Wake(l)] + [Finish(l)], Abort, w8);
    assert steps + [Wake(l)] + [Finish(l)] + [Abort] == steps + [Wake(l), Finish(l), Abort];
  }

  lemma NothingEnd(l: Label, steps: seq<Step>, w: World)
    requires Reaches(steps, w) && w == MarkedWorld(l)
    ensures var nothing := steps + [EndOfDict, Clear, Wake(l), Finish(l)];
            Legal(nothing) && At(Run(nothing), l, Ended(Returned(Null)))
  {
    hide Run, Legal;
    Extend(steps, EndOfDict, w);
    var w7 := After(w, EndOfDict);
    Extend(steps + [EndOfDict], Clear, w7);
    var w8 := After(w7, Clear);
    Extend(steps + [EndOfDict] + [Clear], Wake(l), w8);
    var w9 := After(w8, Wake(l));
    Extend(steps + [EndOfDict] + [Clear] + [Wake(l)], Finish(l), w9);
    assert steps + [EndOfDict] + [Clear] + [Wake(l)] + [Finish(l)] == steps + [EndOfDict, Clear, Wake(l), Finish(l)];
  }

  /** Both ends are possible: the error of the lost link, or nothing at all. */
  lemma LossHasTwoEnds(l: Label)
    ensures var raises := UntilMarked(l) + [Wake(l), Finish(l), Abort];
            Legal(raises) && At(Run(raises), l, Ended(Raised(LINK_LOST)))
    ensures var nothing := UntilMarked(l) + [EndOfDict, Clear, Wake(l), Finish(l)];
            Legal(nothing) && At(Run(nothing), l, Ended(Returned(Null)))
  {
    ReachMarked(l);
    RaisesEnd(l, UntilMarked(l), MarkedWorld(l));
    NothingEnd(l, UntilMarked(l), MarkedWorld(l));
  }

  // ---------- the code ----------

  class MeshClient {
    var connected: bool
    var pending: map<Label, Slot>
    /** The calls whose event is set. */
    var fired: set<Label>

    ghost function Seen(calls: map<Label, Phase>, loss: Loss): World
      reads this
    {
      World(connected, pending, fired, calls, loss)
    }

    /** _resolve, as _on_pack calls it */
    method OnPacket(p: Packet)
      modifies this`pending, this`fired
      ensures forall calls, loss :: Seen(calls, loss) == OnPack(old(Seen(calls, loss)), p)
    {
      if !p.Other? && p.id in pending {
        var slot := pending[p.id];
        if p.Response? {
          slot := slot.(result := Some(p.data));
        } else {
          slot := slot.(error := Some(if p.message == "" then RPC_ERROR else p.message));
        }
        pending := pending[p.id := slot];
        fired := fired + {p.id};
      }
    }

    /** _resolve_all when no call comes or goes meanwhile: every call is woken, and none is left. */
    method ResolveAll()
      modifies this`pending, this`fired
      ensures pending == map[] && fired == old(fired) + old(pending.Keys)
    {
      var todo := pending.Keys;
      while todo != {}
        invariant todo <= pending.Keys && pending.Keys == old(pending.Keys)
        invariant fired == old(fired) + (pending.Keys - todo)
        decreases todo
      {
        var l :| l in todo;
        pending := pending[l := pending[l].(error := Some(LINK_LOST))];
        fired := fired + {l};
        todo := todo - {l};
      }
      pending := map[];
    }

    /** The end of call, once its event was set. */
    method Collect(l: Label) returns (o: Outcome)
      modifies this`pending
      ensures forall calls, loss :: o == Verdict(old(Seen(calls, loss)), l)
                                    && Seen(calls, loss) == Pop(old(Seen(calls, loss)), l)
    {
      var slot := FRESH;
      if l in pending { slot := pending[l]; }
      pending := pending - {l};
      if slot.error.Some? { return Raised(slot.error.value); }
      return Returned(if slot.result.Some? then slot.result.value else Null);
    }
  }
}
