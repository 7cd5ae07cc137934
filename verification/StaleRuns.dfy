/** Runs in which sync and poll read first and settle later, with any steps in between. */
module StaleRuns {
  import opened Basics
  import opened Settlement
  import opened SettlementSafety
  import opened SettlementRuns
  import opened StaleReads

  /** What a background task holds between its query and the settlement. */
  datatype Copy = Copy(package: Package, payment: Payment)

  /** The protocol and the copies of the tasks that are waiting for Stripe. */
  datatype System = System(world: World, copies: map<nat, Copy>)

  datatype Event =
    | Serial(moment: Moment)
    | SyncReads(task: nat, pk: nat)
    | PollReads(task: nat)
    | Settles(task: nat, reply: SessionReply, oracle: Oracle)

  /** A sync starts from an open package and the payment it was asked about. */
  function ReadForSync(s: State, pk: nat): Option<Copy> {
    var at := FindPk(s.payments, pk);
    if s.package.status != Open || at.None? then None else Some(Copy(s.package, s.payments[at.value]))
  }

  /** The poll selects its packages first; a package may be open no longer when its payment is read. */
  function ReadForPoll(s: State): Option<Copy> {
    var at := LatestIncomplete(s.payments);
    if at.None? then None else Some(Copy(s.package, s.payments[at.value]))
  }

  predicate Settleable(copy: Copy, reply: SessionReply) {
    copy.payment.session.Stripe? && reply.SessionReport? && reply.paid
  }

  /** Settling from a copy; Stripe does not know placeholder ids, and a vanished row cannot be saved. */
  function SettleCopy(s: State, copy: Copy, reply: SessionReply, o: Oracle): State {
    var at := FindPk(s.payments, copy.payment.pk);
    if !Settleable(copy, reply) || at.None? then s
    else SettleFrom(s, copy.package, copy.payment, at.value, reply.session, PaymentSynced, o).0
  }

  function Holding(system: System, task: nat, copy: Option<Copy>): System {
    if copy.None? then system else system.(copies := system.copies[task := copy.value])
  }

  function Take(system: System, event: Event): System {
    match event
    case Serial(m) => system.(world := Next(system.world, m))
    case SyncReads(task, pk) => Holding(system, task, ReadForSync(system.world.state, pk))
    case PollReads(task) => Holding(system, task, ReadForPoll(system.world.state))
    case Settles(task, reply, o) =>
      if task !in system.copies then system
      else System(system.world.(state := SettleCopy(system.world.state, system.copies[task], reply, o)), system.copies - {task})
  }

  function RunSystem(system: System, events: seq<Event>): System
    decreases |events|
  {
    if events == [] then system else RunSystem(Take(system, events[0]), events[1..])
  }

  // ----- The joint invariant -----

  predicate CopyAllowed(s: State, copy: Copy, reply: SessionReply, o: Oracle) {
    var at := FindPk(s.payments, copy.payment.pk);
    Settleable(copy, reply) && at.Some? ==> StaleAllowed(s, copy.package, copy.payment, at.value, reply.session, o)
  }

  predicate EventAllowed(system: System, event: Event) {
    match event
    case Serial(m) => StepAllowed(system.world, m)
    case Settles(task, reply, o) => task in system.copies ==> CopyAllowed(system.world.state, system.copies[task], reply, o)
    case _ => true
  }

  lemma EventKeepsJointExactly(system: System, event: Event)
    requires Joint(system.world.state)
    ensures Joint(Take(system, event).world.state) <==> EventAllowed(system, event)
  {
    hide Joint, Next, StepAllowed, SettleFrom, StaleAllowed;
    match event
    case Serial(m) => StepKeepsJointExactly(system.world, m);
    case Settles(task, reply, o) =>
      if task in system.copies {
        var s, copy := system.world.state, system.copies[task];
        var at := FindPk(s.payments, copy.payment.pk);
        if Settleable(copy, reply) && at.Some? {
          StaleSettlementKeepsJointExactly(s, copy.package, copy.payment, at.value, reply.session, PaymentSynced, o);
        }
      }
    case _ =>
  }

  predicate JointThroughout(system: System, events: seq<Event>)
    decreases |events|
  {
    Joint(system.world.state) && (events != [] ==> JointThroughout(Take(system, events[0]), events[1..]))
  }

  predicate AllowedEvents(system: System, events: seq<Event>)
    decreases |events|
  {
    events != [] ==> EventAllowed(system, events[0]) && AllowedEvents(Take(system, events[0]), events[1..])
  }

  /** Over every interleaving of protocol steps with tasks that read first and settle later, the joint
      invariant holds at every point if and only if every event was allowed. */
  lemma {:induction false} RunKeepsJointExactly(system: System, events: seq<Event>)
    requires Joint(system.world.state)
    ensures JointThroughout(system, events) <==> AllowedEvents(system, events)
    decreases |events|
  {
    hide Joint, Take, EventAllowed;
    if events != [] {
      EventKeepsJointExactly(system, events[0]);
      if Joint(Take(system, events[0]).world.state) {
        RunKeepsJointExactly(Take(system, events[0]), events[1..]);
      }
    }
  }

  // ----- Nothing in between: the serial steps -----

  lemma RefreshFromCopy(s: State, at: nat, reply: SessionReply, o: Oracle)
    requires at < |s.payments| && FindPk(s.payments, s.payments[at].pk) == Some(at) && s.package.status == Open
    ensures SettleCopy(s, Copy(s.package, s.payments[at]), reply, o) == Perform(s, PlanRefresh(s, Some(at), reply), o)
  {
    hide ApplyPaidSession, SettleFrom, FindPk;
    if reply.SessionReport? {
      FreshReadSettlesSerially(s, s.package, s.payments[at], at, reply.session, PaymentSynced, o);
    }
  }

  /** A task whose settlement follows at once on its read is the serial step. */
  lemma UndisturbedTaskIsSerial(system: System, task: nat, pk: nat, reply: SessionReply, o: Oracle)
    requires task !in system.copies && WellFormed(system.world.state)
    ensures RunSystem(system, [SyncReads(task, pk), Settles(task, reply, o)])
         == system.(world := Next(system.world, Moment(Sync(pk, reply), o, 0)))
    ensures system.world.state.package.status == Open ==>
              (RunSystem(system, [PollReads(task), Settles(task, reply, o)])
               == system.(world := Next(system.world, Moment(Poll(reply), o, 0))))
  {
    var s := system.world.state;
    assert Ticked(s, 0) == s;
    SyncThenSettle(system, task, pk, reply, o);
    if s.package.status == Open {
      PollThenSettle(system, task, reply, o);
    }
  }

  lemma TwoEvents(system: System, first: Event, second: Event)
    ensures RunSystem(system, [first, second]) == Take(Take(system, first), second)
  {
    hide Take;
    assert [first, second][1..] == [second] && [second][1..] == [];
    assert RunSystem(Take(system, first), [second]) == RunSystem(Take(Take(system, first), second), []);
  }

  lemma SyncThenSettle(system: System, task: nat, pk: nat, reply: SessionReply, o: Oracle)
    requires task !in system.copies
    ensures RunSystem(system, [SyncReads(task, pk), Settles(task, reply, o)])
         == system.(world := Next(system.world, Moment(Sync(pk, reply), o, 0)))
  {
    hide Perform, SettleCopy;
    var s, at := system.world.state, FindPk(system.world.state.payments, pk);
    assert Ticked(s, 0) == s;
    TwoEvents(system, SyncReads(task, pk), Settles(task, reply, o));
    if s.package.status == Open && at.Some? {
      RefreshFromCopy(s, at.value, reply, o);
      assert system.copies[task := Copy(s.package, s.payments[at.value])] - {task} == system.copies;
    } else {
      PerformsNothing(s, o);
    }
  }

  lemma PollThenSettle(system: System, task: nat, reply: SessionReply, o: Oracle)
    requires task !in system.copies && WellFormed(system.world.state) && system.world.state.package.status == Open
    ensures RunSystem(system, [PollReads(task), Settles(task, reply, o)])
         == system.(world := Next(system.world, Moment(Poll(reply), o, 0)))
  {
    hide Perform, SettleCopy;
    var s, at := system.world.state, LatestIncomplete(system.world.state.payments);
    assert Ticked(s, 0) == s;
    TwoEvents(system, PollReads(task), Settles(task, reply, o));
    if at.Some? {
      KeyFindsRow(s, at.value);
      RefreshFromCopy(s, at.value, reply, o);
      assert system.copies[task := Copy(s.package, s.payments[at.value])] - {task} == system.copies;
    } else {
      PerformsNothing(s, o);
    }
  }

  lemma PerformsNothing(s: State, o: Oracle)
    ensures Perform(s, Nothing, o) == s
  {
  }

  lemma KeyFindsRow(s: State, i: nat)
    requires WellFormed(s) && i < |s.payments|
    ensures FindPk(s.payments, s.payments[i].pk) == Some(i)
  {
    assert s.payments[i] in s.payments;
  }

  // ----- The row of a waiting task -----

  /** Every copy with a real session still has its stored row. */
  predicate CopiesHaveRows(system: System) {
    forall task | task in system.copies && system.copies[task].payment.session.Stripe? ::
      StillHas(system.world.state, system.copies[task].payment, false)
  }

  lemma SettleFromKeepsRow(s: State, copy: Copy, i: nat, session: Session, o: Oracle, j: nat)
    requires i < |s.payments| && j < |s.payments|
    ensures var after := SettleFrom(s, copy.package, copy.payment, i, session, PaymentSynced, o).0;
            && |after.payments| == |s.payments|
            && after.payments[j].pk == s.payments[j].pk && after.payments[j].session == s.payments[j].session
  {
    hide AmountMatches, MarkAsPaid, PayerCurrency, Refunds;
    var completed := s.payments[i].(completed := true, intent := CompletedFrom(copy.payment, session).intent);
    MarkingKeepsRows(WithPayment(s, i, completed), copy.payment.payer, PayerCurrency(copy.payment), o.rowFree);
  }

  lemma SettlingKeepsRows(s: State, copy: Copy, reply: SessionReply, o: Oracle, row: Payment)
    requires StillHas(s, row, false)
    ensures StillHas(SettleCopy(s, copy, reply, o), row, false)
  {
    hide SettleFrom, FindPk;
    var j :| 0 <= j < |s.payments| && s.payments[j].pk == row.pk && s.payments[j].session == row.session;
    var at := FindPk(s.payments, copy.payment.pk);
    if Settleable(copy, reply) && at.Some? {
      SettleFromKeepsRow(s, copy, at.value, reply.session, o, j);
    }
    var after := SettleCopy(s, copy, reply, o);
    assert after.payments[j].pk == row.pk && after.payments[j].session == row.session;
  }

  lemma StepKeepsRowOf(w: World, m: Moment, row: Payment)
    requires StillHas(w.state, row, false) && row.session.Stripe?
    ensures StillHas(Next(w, m).state, row, false)
  {
    var j :| 0 <= j < |w.state.payments| && w.state.payments[j].pk == row.pk && w.state.payments[j].session == row.session;
    StepKeepsRealRow(w, m, j);
    hide Next, IntentSettled;
  }

  lemma EventKeepsCopies(system: System, event: Event)
    requires CopiesHaveRows(system)
    ensures CopiesHaveRows(Take(system, event))
  {
    hide Next, SettleCopy;
    var after := Take(system, event);
    forall task | task in after.copies && after.copies[task].payment.session.Stripe?
      ensures StillHas(after.world.state, after.copies[task].payment, false)
    {
      var row := after.copies[task].payment;
      match event
      case Serial(m) => StepKeepsRowOf(system.world, m, row);
      case Settles(other, reply, o) =>
        if other in system.copies {
          SettlingKeepsRows(system.world.state, system.copies[other], reply, o, row);
        }
      case _ =>
    }
  }

  /** A copy's row never vanishes while its task waits: over every run, settling from a copy with a real
      session finds the row it was read from. */
  lemma {:induction false} CopiesKeepTheirRows(system: System, events: seq<Event>, task: nat)
    requires CopiesHaveRows(system)
    ensures var after := RunSystem(system, events);
            task in after.copies && after.copies[task].payment.session.Stripe? ==>
              FindPk(after.world.state.payments, after.copies[task].payment.pk).Some?
    decreases |events|
  {
    hide Take;
    if events != [] {
      EventKeepsCopies(system, events[0]);
      CopiesKeepTheirRows(Take(system, events[0]), events[1..], task);
    }
  }
}
