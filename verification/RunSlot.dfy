/** The UI's single run slot: `start` claims it under the lock, publishes its status outside the lock,
    runs the action in a goroutine, clears the slot and publishes again; `handleStop` cancels; and each
    browser that connects (`handleEvents`) reads the slot under the lock and publishes what it saw,
    outside the lock and to everyone. */
module RunSlot {
  import opened Basics

  /** The slot in place: whose cancel function the server holds, and that run's name. */
  class Slot {
    var cancel: Option<nat>
    var current: string

    constructor ()
      ensures cancel == None && current == ""
    {
      cancel, current := None, "";
    }

    /** `r` names the context just made for this run. */
    method Start(r: nat, name: string) returns (ok: bool)
      modifies this
      ensures ok <==> old(cancel).None?
      ensures if ok then cancel == Some(r) && current == name else cancel == old(cancel) && current == old(current)
    {
      if cancel.Some? {
        return false;
      }
      cancel, current := Some(r), name;
      ok := true;
    }

    method Clear()
      modifies this
      ensures cancel == None && current == ""
    {
      cancel, current := None, "";
    }

    /** Which run's context `handleStop` cancels. */
    method Stop() returns (cancelled: Option<nat>)
      ensures cancelled == cancel
    {
      cancelled := None;
      if cancel.Some? {
        cancelled := cancel;
      }
    }
  }

  // ------------------------------------------------------------- runs

  /** Where a run that claimed the slot stands. */
  datatype Phase = Claimed | Running | Returned | Cleared | Ended

  /** A status frame: this run is going on, or none is. */
  datatype Status = Busy(r: nat) | Quiet

  /** `seen` is what connecting browsers have read and not yet published; `statuses` are the frames
      published by runs, `frames` those and the browsers', in order. */
  datatype State = State(cancel: Option<nat>, phases: map<nat, Phase>, cancelled: set<nat>,
                         seen: map<nat, Status>, statuses: seq<Status>, frames: seq<Status>)

  datatype Event =
    | Claim(r: nat) | PublishBusy(r: nat) | BodyReturns(r: nat) | Clear(r: nat) | PublishQuiet(r: nat)
    | Stop
    | Look(v: nat) | Show(v: nat)

  predicate In(s: State, r: nat, p: Phase) { r in s.phases && s.phases[r] == p }

  predicate Enabled(s: State, e: Event) {
    match e
    case Claim(r) => s.cancel.None? && r !in s.phases
    case PublishBusy(r) => In(s, r, Claimed)
    case BodyReturns(r) => In(s, r, Running)
    case Clear(r) => In(s, r, Returned)
    case PublishQuiet(r) => In(s, r, Cleared)
    case Stop => true
    case Look(v) => v !in s.seen
    case Show(v) => v in s.seen
  }

  /** What a look at the slot finds. */
  function Current(s: State): Status { if s.cancel.Some? then Busy(s.cancel.value) else Quiet }

  function Published(s: State, st: Status): State { s.(statuses := s.statuses + [st], frames := s.frames + [st]) }

  function Step(s: State, e: Event): State
    requires Enabled(s, e)
  {
    match e
    case Claim(r) => s.(cancel := Some(r), phases := s.phases[r := Claimed])
    case PublishBusy(r) => Published(s.(phases := s.phases[r := Running]), Busy(r))
    case BodyReturns(r) => s.(phases := s.phases[r := Returned])
    case Clear(r) => s.(cancel := None, phases := s.phases[r := Cleared])
    case PublishQuiet(r) => Published(s.(phases := s.phases[r := Ended]), Quiet)
    case Stop => if s.cancel.Some? then s.(cancelled := s.cancelled + {s.cancel.value}) else s
    case Look(v) => s.(seen := s.seen[v := Current(s)])
    case Show(v) => s.(seen := s.seen - {v}, frames := s.frames + [s.seen[v]])
  }

  const INIT: State := State(None, map[], {}, map[], [], [])

  ghost predicate Valid(run: seq<Event>)
    decreases |run|, 0
  {
    run == [] || (Valid(run[..|run| - 1]) && Enabled(Exec(run[..|run| - 1]), run[|run| - 1]))
  }

  ghost function Exec(run: seq<Event>): State
    requires Valid(run)
    decreases |run|, 1
  {
    if run == [] then INIT else Step(Exec(run[..|run| - 1]), run[|run| - 1])
  }

  predicate AllEnded(s: State) { forall r | r in s.phases :: s.phases[r] == Ended }

  predicate Owns(p: Phase) { p.Claimed? || p.Running? || p.Returned? }

  ghost predicate SlotInv(s: State) {
    && (forall r | r in s.phases && Owns(s.phases[r]) :: s.cancel == Some(r))
    && (s.cancel.Some? ==> s.cancel.value in s.phases && Owns(s.phases[s.cancel.value]))
    && s.cancelled <= s.phases.Keys
    && (s.statuses != [] && s.statuses[|s.statuses| - 1].Busy? ==>
          var r := s.statuses[|s.statuses| - 1].r;
          r in s.phases && !s.phases[r].Claimed? && !s.phases[r].Ended?)
  }

  lemma StepKeeps(s: State, e: Event)
    requires SlotInv(s) && Enabled(s, e)
    ensures SlotInv(Step(s, e))
  {
  }

  lemma {:induction false} ExecKeeps(run: seq<Event>)
    requires Valid(run)
    ensures SlotInv(Exec(run))
    decreases |run|
  {
    if run != [] {
      ExecKeeps(run[..|run| - 1]);
      StepKeeps(Exec(run[..|run| - 1]), run[|run| - 1]);
    }
  }

  /** In every interleaving at most one action body runs, and the cancel field is set exactly between
      a claim and that run's own clear. */
  lemma OneBodyAtATime(run: seq<Event>, r: nat, q: nat)
    requires Valid(run)
    ensures var s := Exec(run);
            && (In(s, r, Running) && In(s, q, Running) ==> r == q)
            && (s.cancel == Some(r) <==> r in s.phases && Owns(s.phases[r]))
  {
    ExecKeeps(run);
  }

  /** A stop cancels the slot's current owner and no one else, and no other step cancels anything. */
  lemma OnlyOwnerCancelled(run: seq<Event>, e: Event, r: nat)
    requires Valid(run) && Enabled(Exec(run), e)
    ensures r in Step(Exec(run), e).cancelled && r !in Exec(run).cancelled <==>
              e == Stop && r !in Exec(run).cancelled && r in Exec(run).phases && Owns(Exec(run).phases[r])
  {
    ExecKeeps(run);
  }

  /** Once every run has finished, the last status any run published is "idle". */
  lemma QuietAtTheEnd(run: seq<Event>)
    requires Valid(run) && AllEnded(Exec(run))
    ensures Exec(run).statuses == [] || Exec(run).statuses[|Exec(run).statuses| - 1] == Quiet
  {
    ExecKeeps(run);
  }

  // ------------------------------------------------------------- where the display can lag

  lemma Nothing() returns (run: seq<Event>)
    ensures |run| == 0 && Valid(run) && Exec(run) == INIT
  {
    run := seq(0, i => Stop);
  }

  lemma Extend(run: seq<Event>, e: Event) returns (next: seq<Event>)
    requires Valid(run) && Enabled(Exec(run), e)
    ensures Valid(next) && Exec(next) == Step(Exec(run), e)
  {
    next := run + [e];
    assert next[..|next| - 1] == run;
  }

  /** The first run finishes except for its idle frame. */
  lemma UpToClear() returns (run: seq<Event>)
    ensures Valid(run)
    ensures Exec(run) == State(None, map[1 := Cleared], {}, map[], [Busy(1)], [Busy(1)])
  {
    run := Nothing();
    run := Extend(run, Claim(1));
    run := Extend(run, PublishBusy(1));
    run := Extend(run, BodyReturns(1));
    run := Extend(run, Clear(1));
  }

  /** Publishing outside the lock has a price: a run can be going on, with no status frame still to
      come from it, from a run before it or from a browser already connecting, while the last frame
      says idle. */
  lemma IdleShownWhileRunning() returns (run: seq<Event>)
    ensures Valid(run) && In(Exec(run), 2, Running) && In(Exec(run), 1, Ended)
    ensures Exec(run).phases.Keys == {1, 2} && Exec(run).seen == map[] && Exec(run).frames == [Busy(1), Busy(2), Quiet]
  {
    run := UpToClear();
    run := Extend(run, Claim(2));
    run := Extend(run, PublishBusy(2));
    run := Extend(run, PublishQuiet(1));
  }

  /** Between its two status frames. */
  predicate OnDisplay(p: Phase) { p.Running? || p.Returned? || p.Cleared? }

  /** A frame that is right now: it names the run that is between its own two frames, or says idle
      when there is none. */
  ghost predicate Right(s: State, st: Status) {
    forall r: nat :: st == Busy(r) <==> r in s.phases && OnDisplay(s.phases[r])
  }

  function LastFrame(s: State): Status { if s.frames == [] then Quiet else s.frames[|s.frames| - 1] }

  ghost predicate DisplayExact(s: State) { Right(s, LastFrame(s)) }

  /** Exact after every step of the run. */
  ghost predicate AlwaysExact(run: seq<Event>)
    requires Valid(run)
    decreases |run|
  {
    DisplayExact(Exec(run)) && (run == [] || AlwaysExact(run[..|run| - 1]))
  }

  /** No busy frame is published while a cleared run's idle frame is still to come. */
  ghost predicate NoOvertaking(run: seq<Event>)
    requires Valid(run)
    decreases |run|
  {
    run == [] ||
    (NoOvertaking(run[..|run| - 1]) && (run[|run| - 1].PublishBusy? ==> NonePending(Exec(run[..|run| - 1]))))
  }

  ghost predicate NonePending(s: State) { forall r | r in s.phases :: s.phases[r] != Cleared }

  /** What a browser saw when it looked is still right when it is published. */
  ghost predicate NoStaleViewer(run: seq<Event>)
    requires Valid(run)
    decreases |run|
  {
    run == [] ||
    var s, e := Exec(run[..|run| - 1]), run[|run| - 1];
    NoStaleViewer(run[..|run| - 1]) && (e.Show? ==> Right(s, s.seen[e.v]))
  }

  lemma BusyFrame(s: State, q: nat)
    requires SlotInv(s) && In(s, q, Claimed)
    ensures DisplayExact(Step(s, PublishBusy(q))) <==> NonePending(s)
  {
    var s' := Step(s, PublishBusy(q));
    assert LastFrame(s') == Busy(q);
    if NonePending(s) {
      forall r: nat ensures r in s'.phases && OnDisplay(s'.phases[r]) <==> r == q {
        assert r in s.phases && OnDisplay(s.phases[r]) ==> Owns(s.phases[r]);
      }
    } else {
      var r :| r in s.phases && s.phases[r] == Cleared;
      assert r in s'.phases && OnDisplay(s'.phases[r]) && Busy(r) != Busy(q);
    }
  }

  lemma QuietFrame(s: State, r: nat)
    requires DisplayExact(s) && In(s, r, Cleared)
    ensures DisplayExact(Step(s, PublishQuiet(r)))
  {
    assert LastFrame(s) == Busy(r);
    var s' := Step(s, PublishQuiet(r));
    forall q: nat ensures !(q in s'.phases && OnDisplay(s'.phases[q])) {
      assert q in s.phases && OnDisplay(s.phases[q]) ==> LastFrame(s) == Busy(q);
    }
  }

  lemma ViewerFrame(s: State, v: nat)
    requires v in s.seen
    ensures DisplayExact(Step(s, Show(v))) <==> Right(s, s.seen[v])
  {
    var s' := Step(s, Show(v));
    assert LastFrame(s') == s.seen[v] && s'.phases == s.phases;
  }

  /** A step without a frame takes no run on or off display. */
  lemma NoFrame(s: State, e: Event)
    requires DisplayExact(s) && Enabled(s, e) && !e.PublishBusy? && !e.PublishQuiet? && !e.Show?
    ensures DisplayExact(Step(s, e))
  {
    var s' := Step(s, e);
    assert LastFrame(s') == LastFrame(s);
    forall r: nat ensures LastFrame(s') == Busy(r) <==> r in s'.phases && OnDisplay(s'.phases[r]) {
      assert LastFrame(s) == Busy(r) <==> r in s.phases && OnDisplay(s.phases[r]);
    }
  }

  /** The display is exact throughout a run if and only if no busy frame overtakes the idle frame of
      the run that was cleared before it, and no browser publishes what is no longer (or not yet) so. */
  lemma {:induction false} DisplayExactIff(run: seq<Event>)
    requires Valid(run)
    ensures AlwaysExact(run) <==> NoOvertaking(run) && NoStaleViewer(run)
    decreases |run|
  {
    if run != [] {
      var p, e := run[..|run| - 1], run[|run| - 1];
      DisplayExactIff(p);
      if AlwaysExact(p) {
        ExecKeeps(p);
        if e.PublishBusy? {
          BusyFrame(Exec(p), e.r);
        } else if e.PublishQuiet? {
          QuietFrame(Exec(p), e.r);
        } else if e.Show? {
          ViewerFrame(Exec(p), e.v);
        } else {
          NoFrame(Exec(p), e);
        }
      }
    }
  }

  lemma ExtendOvertaking(run: seq<Event>, e: Event) returns (next: seq<Event>)
    requires Valid(run) && Enabled(Exec(run), e) && NoOvertaking(run)
    requires e.PublishBusy? ==> NonePending(Exec(run))
    ensures Valid(next) && Exec(next) == Step(Exec(run), e) && NoOvertaking(next)
  {
    next := run + [e];
    assert next[..|next| - 1] == run;
  }

  /** A browser that connects while a run is going on, and publishes what it saw once the run is over. */
  lemma LookEarly() returns (run: seq<Event>)
    ensures Valid(run) && NoOvertaking(run)
    ensures Exec(run) == State(Some(1), map[1 := Running], {}, map[9 := Busy(1)], [Busy(1)], [Busy(1)])
  {
    run := Nothing();
    assert NoOvertaking(run);
    run := ExtendOvertaking(run, Claim(1));
    run := ExtendOvertaking(run, PublishBusy(1));
    run := ExtendOvertaking(run, Look(9));
  }

  /** The other failure: nothing runs, every run has published its idle frame and none was overtaken,
      yet the last frame says busy, until another browser connects or another run starts. */
  lemma BusyShownAtRest() returns (run: seq<Event>)
    ensures Valid(run) && NoOvertaking(run) && AllEnded(Exec(run)) && Exec(run).cancel == None
    ensures Exec(run).seen == map[] && Exec(run).frames == [Busy(1), Quiet, Busy(1)]
  {
    run := LookEarly();
    run := ExtendOvertaking(run, BodyReturns(1));
    run := ExtendOvertaking(run, Clear(1));
    run := ExtendOvertaking(run, PublishQuiet(1));
    run := ExtendOvertaking(run, Show(9));
  }
}
