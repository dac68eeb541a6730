/**
 The controller under the commands of the program: every sequence of ticks, teardown
 requests, stop and start commands leads the object where the run leads.
 */
module Commands {
  import opened Types
  import opened ClientSpec
  import opened Rings
  import opened Scheduler
  import opened Control
  import opened SchedulerRuns
  import opened SchedulerCounts

  // What the program tells the controller.
  predicate Command(cfgs: seq<Config>, h: Happening) {
    h.Happens? ==> h.index < |cfgs| && (h.event.Clear? || h.event.Restart?)
  }

  // A command does what the happening does that it is named after.
  method Obey(c: Controller, cfgs: seq<Config>, h: Happening)
    requires c.Valid() && |cfgs| == c.sessions.Length && Command(cfgs, h) && !Requeues(c.Snapshot(), h)
    modifies c, c.sessions, c.idle, c.idle.next, c.idle.prev, c.drain, c.drain.next, c.drain.prev
    ensures Fits(cfgs, old(c.Snapshot()))
    ensures c.Valid() && c.Snapshot() == Next(cfgs, c.rates, old(c.Snapshot()), h)
  {
    hide CtrlTick, Ring.Valid, RestartSession, ClearSession;
    QueuedInRange(c.idle);
    QueuedInRange(c.drain);
    match h
    case Job(links, delayOver) => c.CtrlJob(links, delayOver);
    case Request => c.RequestTeardown();
    case Happens(i, e) =>
      CommandsHappen(cfgs, c.rates, c.Snapshot(), i);
      if e.Clear? {
        c.StopSession(i);
      } else {
        var ok := c.StartAgain(cfgs[i], i);
      }
  }

  // So any sequence of commands leads where the run leads.
  method ObeyAll(c: Controller, cfgs: seq<Config>, hs: seq<Happening>)
    requires c.Valid() && |cfgs| == c.sessions.Length && forall k :: 0 <= k < |hs| ==> Command(cfgs, hs[k])
    requires Fits(cfgs, c.Snapshot()) && AllAllowed(cfgs, hs) && NeverRequeues(cfgs, c.rates, c.Snapshot(), hs)
    modifies c, c.sessions, c.idle, c.idle.next, c.idle.prev, c.drain, c.drain.next, c.drain.prev
    ensures c.Valid() && c.Snapshot() == History(cfgs, c.rates, old(c.Snapshot()), hs)
  {
    hide Next, Ring.Valid, Fits, Requeues, Allowed, Command;
    ghost var s := c.Snapshot();
    assert hs[..0] == [];
    for k := 0 to |hs|
      invariant c.Valid() && c.Snapshot() == History(cfgs, c.rates, s, hs[..k])
    {
      assert !RequeuesAt(cfgs, c.rates, s, hs, k);
      HistoryStep(cfgs, c.rates, s, hs, k);
      Obey(c, cfgs, hs[k]);
    }
    assert hs[..|hs|] == hs;
  }
}
