/**
 The theorems about runs, applied to the imperative node service, and the regression
 script's loop for any number of iterations.
 */
module NodeRegression {
  import opened NodeHost
  import opened NbdProtocol
  import opened NbdInvariant
  import opened NbdTheorems
  import opened NbdHistory
  import opened NodeService

  /** The caller's steps since its session began are a run of its calls alone. */
  lemma SessionIsSoloRun(env: Env, t: History)
    requires IsHistory(env, t)
    ensures IsRun(env, t.states[t.session.mark..], t.events[t.session.mark..])
    ensures Solo(t.events[t.session.mark..], t.session.caller)
  {
    var m := t.session.mark;
    var states, events := t.states[m..], t.events[m..];
    forall i: nat | i < |events| ensures StepAt(env, states, events, i) && events[i] == Call(t.session.caller) {
      assert StepAt(env, t.states, t.events, m + i) && CallAt(t.events, m + i, t.session.caller);
    }
  }

  /** The invariant carries over from the beginning of the session to its end, however the
      deferred clear goes. */
  lemma SessionKeepsInv(env: Env, t: History)
    requires IsHistory(env, t) && Orderly(env)
    requires Inv(t.session.origin) && BetweenCalls(t.session.origin, t.session.caller)
    ensures Inv(Last(t))
  {
    SessionIsSoloRun(env, t);
    var m := t.session.mark;
    SoloRunsAreCareful(env, t.states[m..], t.events[m..], t.session.caller);
    RunKeepsInv(env, t.states[m..], t.events[m..], |t.events| - m);
  }

  /** After NodePublishVolume has succeeded, the target is mounted from the device that v
      records and that is reserved for v; it serves no disk but v's, which has a filesystem. */
  lemma SuccessfulPublishIsBacked(env: Env, t: History, v: Volume, h: Host)
    requires Reached(env, t, v, Idle(Published), h) && Orderly(env)
    requires Inv(t.session.origin) && BetweenCalls(t.session.origin, v)
    ensures v in h.mounts && h.mounts[v].Nbd? && HasFilesystem(h, v)
    ensures Records(h, v, h.mounts[v].dev) && Reserved(h, h.mounts[v].dev, v)
    ensures h.mounts[v].dev in h.attached ==> h.attached[h.mounts[v].dev] == v
  {
    SessionKeepsInv(env, t);
    assert Local(h, At(Last(t), v), v);
  }

  /** After NodePublishVolume has failed, nothing is mounted on the target and no device is
      recorded for v. */
  lemma FailedPublishIsBare(env: Env, t: History, v: Volume, h: Host)
    requires Reached(env, t, v, Idle(Failed), h) && Orderly(env)
    requires Inv(t.session.origin) && BetweenCalls(t.session.origin, v)
    ensures v !in h.mounts && Unrecorded(h, v)
  {
    SessionKeepsInv(env, t);
    assert Local(h, At(Last(t), v), v);
  }

  /** A session of a volume that started blank and ends between calls, not published, has
      restored the node. */
  lemma SessionRestores(env: Env, t: History, v: Volume, h: Host, last: Outcome)
    requires Reached(env, t, v, Idle(last), h) && (last == Unpublished || last == Failed)
    requires Orderly(env) && Reliable(env, v) && Inv(t.session.origin)
    requires Blank(t.session.origin.host, v) && BetweenCalls(t.session.origin, v)
    ensures Restored(t.session.origin.host, h, v)
  {
    SessionIsSoloRun(env, t);
    var m := t.session.mark;
    SoloRunsAreCareful(env, t.states[m..], t.events[m..], v);
    CycleRestoresNode(env, t.states[m..], t.events[m..], v);
  }

  datatype Cycle = Cycle(publish: PublishWorld, umounts: bool, detaches: bool)

  ghost predicate AllowsCycle(env: Env, c: Cycle, v: Volume, h: Host) {
    && Allows(env, c.publish, v)
    && (env.umountEnds ==> c.umounts)
    && (v !in env.detachFails ==> c.detaches)
    && (env.agedSafe ==> AgedUnrecorded(h, c.publish.scan.aged))
  }

  /** hack/nbd_regression.sh for every number of iterations and every outcome of every
      operation: publish, then unpublish, returns the node to its baseline. */
  method RunRegression(node: Node, v: Volume, cycles: seq<Cycle>, ghost last: Outcome)
    requires node.Ready(v, Idle(last)) && node.run.session.origin == Last(node.run)
    requires Orderly(node.env) && Reliable(node.env, v)
    requires Inv(Last(node.run)) && Blank(node.Now(), v)
    requires forall c :: c in cycles ==> AllowsCycle(node.env, c, v, node.Now())
    modifies node
    ensures Restored(old(node.Now()), node.Now(), v)
    ensures cycles != [] ==> node.Ready(v, Idle(Unpublished))
  {
    ghost var h := node.Now();
    ghost var now := last;
    for i := 0 to |cycles|
      invariant node.run.session == old(node.run.session)
      invariant node.Ready(v, Idle(now)) && (i > 0 ==> now == Unpublished)
      invariant Restored(h, node.Now(), v)
    {
      now := RunCycle(node, v, cycles[i], now, h);
      SessionRestores(node.env, node.run, v, node.Now(), Unpublished);
    }
  }

  /** One iteration. */
  method RunCycle(node: Node, v: Volume, c: Cycle, ghost last: Outcome, ghost h: Host) returns (ghost end: Outcome)
    requires node.Ready(v, Idle(last)) && Restored(h, node.Now(), v) && AllowsCycle(node.env, c, v, h)
    modifies node
    ensures end == Unpublished
    ensures node.run.session == old(node.run.session)
    ensures node.Ready(v, Idle(Unpublished))
  {
    FewerRecordsStayUnrecorded(h, node.Now(), c.publish.scan.aged);
    var ok := node.NodePublishVolume(v, true, c.publish, last);
    if ok {
      ok := node.NodeUnpublishVolume(v, true, c.umounts, c.detaches, Published);
    } else {
      ok := node.NodeUnpublishVolume(v, true, c.umounts, c.detaches, Failed);
    }
    end := Unpublished;
  }
}
