/**
 Runs of the pod protocol, built step by step.
 */
module PodHistories {
  import opened NodeHost
  import opened PodProtocol

  datatype PodHistory = PodHistory(states: seq<PodSystem>, events: seq<PodEvent>, origin: PodSystem)

  ghost predicate IsPodHistory(env: PodEnv, t: PodHistory) {
    IsPodRun(env, t.states, t.events) && t.states[0] == t.origin
  }

  ghost predicate PodReached(env: PodEnv, t: PodHistory, v: Volume, pc: PodPc, c: Cluster) {
    && IsPodHistory(env, t)
    && var last := t.states[|t.events|];
       PcOf(last, v) == pc && last.cluster == c
  }

  lemma Append(env: PodEnv, t: PodHistory, s': PodSystem, e: PodEvent) returns (t': PodHistory)
    requires IsPodHistory(env, t) && PodNext(env, t.states[|t.events|], s', e)
    ensures IsPodHistory(env, t') && t'.states[|t'.events|] == s' && t'.origin == t.origin
  {
    t' := PodHistory(t.states + [s'], t.events + [e], t.origin);
    forall i: nat | i < |t'.events| ensures PodStepAt(env, t'.states, t'.events, i) {
      assert i < |t.events| ==> PodStepAt(env, t.states, t.events, i);
    }
  }

  /** The request v's call has just made. */
  lemma LogRequest(env: PodEnv, t: PodHistory, v: Volume, pc: PodPc, c: Cluster, pc': PodPc, c': Cluster)
    returns (t': PodHistory)
    requires PodReached(env, t, v, pc, c) && PodAct(env, c, pc, v, c', pc')
    ensures PodReached(env, t', v, pc', c') && t'.origin == t.origin
  {
    var s := t.states[|t.events|];
    var s' := PodSystem(c', s.calls[v := pc']);
    assert PcOf(s', v) == pc';
    t' := Append(env, t, s', Request(v));
  }

  lemma LogVanish(env: PodEnv, t: PodHistory, v: Volume, pc: PodPc, c: Cluster) returns (t': PodHistory)
    requires PodReached(env, t, v, pc, c) && v in c.pods && c.pods[v].terminating
    ensures PodReached(env, t', v, pc, DropPod(c, v)) && t'.origin == t.origin
  {
    var s := t.states[|t.events|];
    t' := Append(env, t, s.(cluster := DropPod(c, v)), Vanish(v));
  }

  lemma LogReady(env: PodEnv, t: PodHistory, v: Volume, pc: PodPc, c: Cluster) returns (t': PodHistory)
    requires PodReached(env, t, v, pc, c) && v in c.pods
    ensures PodReached(env, t', v, pc, MarkReady(c, v)) && t'.origin == t.origin
  {
    var s := t.states[|t.events|];
    t' := Append(env, t, s.(cluster := MarkReady(c, v)), Report(v, true));
  }

  function MarkReady(c: Cluster, v: Volume): Cluster
    requires v in c.pods
  {
    c.(pods := c.pods[v := c.pods[v].(ready := true)])
  }
}
