/** Redelivered and crashed webhook deliveries refine processing every event id once. */
module Delivery {
  import opened Basics
  import opened Settlement

  // ----- The specification: first deliveries only, no markers -----

  /** The delivery gets through: it is not cut short by a crash and its handler does not raise. */
  predicate GetsThrough(s: State, m: Moment) {
    m.step.Deliver? && !m.step.crashed && PlanEvent(Ticked(s, m.elapsed), m.step.event).Act?
  }

  /** The state after handling, from state s, every event of a run once: at the first of its
      deliveries that gets through, unless it was handled before. Markers play no part. */
  function Reference(s: State, before: set<string>, run: seq<Moment>): State
    decreases |run|, 1
  {
    Run(World(s, {}), OnceEach(s, before, run)).state
  }

  /** Some delivery of the event got through. */
  predicate Handled(s: State, before: set<string>, run: seq<Moment>, id: string)
    decreases |run|, 0
  {
    if run == [] then id in before
    else
      var shorter, last := run[..|run| - 1], run[|run| - 1];
      Handled(s, before, shorter, id) || (last.step.Deliver? && last.step.id == id && GetsThrough(Reference(s, before, shorter), last))
  }

  /** The run with identifiers dropped and every delivery of an event handled already reduced to the
      time it took. */
  function OnceEach(s: State, before: set<string>, run: seq<Moment>): seq<Moment>
    decreases |run|, 0
  {
    if run == [] then []
    else
      var shorter, last := run[..|run| - 1], run[|run| - 1];
      OnceEach(s, before, shorter) +
      [if !last.step.Deliver? then last
       else if last.step.id != "" && Handled(s, before, shorter, last.step.id) then last.(step := Deliver("", Unrelated, false))
       else last.(step := last.step.(id := ""))]
  }

  // ----- The markers refine it -----

  /** With duplicates, retries and crashes the code reaches the state of the reference run, and the
      stored markers say which events the reference run has handled. */
  lemma {:induction false} DeliveriesRefineOnceEach(w: World, run: seq<Moment>)
    ensures Run(w, run).state == Reference(w.state, w.processed, run)
    ensures Run(World(w.state, {}), OnceEach(w.state, w.processed, run)).processed == {}
    ensures forall id | id != "" :: id in Run(w, run).processed <==> Handled(w.state, w.processed, run, id)
    decreases |run|
  {
    var once := OnceEach(w.state, w.processed, run);
    if run != [] {
      var shorter, last := run[..|run| - 1], run[|run| - 1];
      DeliveriesRefineOnceEach(w, shorter);
      assert once[..|once| - 1] == OnceEach(w.state, w.processed, shorter);
      StepRefines(Run(w, shorter), last, last.step.Deliver? && last.step.id != "" && Handled(w.state, w.processed, shorter, last.step.id));
      hide Next, GetsThrough;
    }
  }

  /** One step of the code against the step the reference run takes for it. */
  lemma StepRefines(w: World, m: Moment, handled: bool)
    requires handled <==> m.step.Deliver? && m.step.id != "" && m.step.id in w.processed
    ensures var bare := if !m.step.Deliver? then m
                        else if handled then m.(step := Deliver("", Unrelated, false))
                        else m.(step := m.step.(id := ""));
            Next(World(w.state, {}), bare) == World(Next(w, m).state, {})
    ensures Next(w, m).processed ==
            if m.step.Deliver? && m.step.id != "" && !handled && GetsThrough(w.state, m) then w.processed + {m.step.id} else w.processed
  {
    hide ApplyPaidSession, RevertPayment, RestorePayment, ClaimCheckout, Attach, Abort, Activate, DeletePackage, PlanRefresh;
  }

  /** The step is a delivery that commits its handler and its marker. */
  predicate Commits(w: World, m: Moment) {
    m.step.Deliver? && (m.step.id == "" || m.step.id !in w.processed) && GetsThrough(w.state, m)
  }

  /** How many deliveries of an event id commit along a run. */
  function CommitCount(w: World, run: seq<Moment>, id: string): nat
    decreases |run|
  {
    if run == [] then 0
    else
      var before, last := Run(w, run[..|run| - 1]), run[|run| - 1];
      CommitCount(w, run[..|run| - 1], id) + (if Commits(before, last) && last.step.id == id then 1 else 0)
  }

  /** An identified event not seen before is handled exactly once if any of its deliveries gets
      through, and never otherwise. */
  lemma {:induction false} EachEventCommitsOnce(w: World, run: seq<Moment>, id: string)
    requires id != "" && id !in w.processed
    ensures CommitCount(w, run, id) == if Handled(w.state, w.processed, run, id) then 1 else 0
    decreases |run|
  {
    hide Next, GetsThrough, OnceEach;
    if run != [] {
      var shorter := run[..|run| - 1];
      EachEventCommitsOnce(w, shorter, id);
      DeliveriesRefineOnceEach(w, shorter);
    }
  }

  /** An event without an id has no marker: each delivery that gets through is handled again. */
  lemma UnidentifiedEventsRepeat(w: World, m: Moment)
    requires m.step.Deliver? && m.step.id == "" && GetsThrough(w.state, m)
    ensures Commits(w, m) && Next(w, m).processed == w.processed
  {
  }
}
