/**
 The two assumptions about the cluster are needed: for each there is a run from an empty
 cluster, all within the other assumption, that ends with a pod without its secret.
 */
module PodNecessity {
  import opened NodeHost
  import opened PodProtocol
  import opened PodHistories

  const EMPTY := PodSystem(Cluster(map[], {}), map[])

  /** Deleting the secret is safe exactly when the pod is gone. */
  lemma SecretDropIsSafeIffPodGone(c: Cluster, v: Volume)
    requires PodsHaveSecrets(c)
    ensures PodsHaveSecrets(c.(secrets := c.secrets - {v})) <==> v !in c.pods
  {
    var c' := c.(secrets := c.secrets - {v});
    if v in c.pods {
      assert v in c'.pods && v !in c'.secrets;
    }
  }

  /** CreatePod succeeds on an empty cluster. */
  lemma CreateOnEmpty(env: PodEnv, v: Volume, node: string) returns (t: PodHistory)
    ensures PodReached(env, t, v, Rest(Created(node)), Cluster(map[v := Pod(node, false, true)], {v}))
    ensures t.origin == EMPTY && PodInv(EMPTY)
  {
    var c0, c1 := EMPTY.cluster, Cluster(map[], {v});
    t := PodHistory([EMPTY], [], EMPTY);
    t := LogRequest(env, t, v, Rest(Untouched), c0, Configure(node), c0);
    t := LogRequest(env, t, v, Configure(node), c0, PutSecret(node), c0);
    t := LogRequest(env, t, v, PutSecret(node), c0, LookUp(node), c1);
    t := LogRequest(env, t, v, LookUp(node), c1, Launch(node), c1);
    t := Launched(env, t, v, node);
  }

  lemma Launched(env: PodEnv, t: PodHistory, v: Volume, node: string) returns (t': PodHistory)
    requires PodReached(env, t, v, Launch(node), Cluster(map[], {v}))
    ensures PodReached(env, t', v, Rest(Created(node)), Cluster(map[v := Pod(node, false, true)], {v}))
    ensures t'.origin == t.origin
  {
    var c1, c2 := Cluster(map[], {v}), Cluster(map[v := Pod(node, false, false)], {v});
    t' := LogRequest(env, t, v, Launch(node), c1, AwaitReady(node), c2);
    t' := LogReady(env, t', v, AwaitReady(node), c2);
    assert MarkReady(c2, v) == Cluster(map[v := Pod(node, false, true)], {v});
    t' := LogRequest(env, t', v, AwaitReady(node), MarkReady(c2, v), Rest(Created(node)), MarkReady(c2, v));
  }

  /** RemovePod goes on to the secret although the force-deleted pod is still there. */
  lemma LingeringPodLosesSecret(v: Volume, node: string) returns (states: seq<PodSystem>, events: seq<PodEvent>)
    ensures IsPodRun(PodEnv(true, false), states, events) && states[0] == EMPTY && PodInv(EMPTY)
    ensures v in states[|events|].cluster.pods && v !in states[|events|].cluster.secrets
  {
    var env := PodEnv(true, false);
    var c := Cluster(map[v := Pod(node, false, true)], {v});
    var t := CreateOnEmpty(env, v, node);
    t := LogRequest(env, t, v, Rest(Created(node)), c, Find, c);
    t := LogRequest(env, t, v, Find, c, Delete, c);
    t := LogRequest(env, t, v, Delete, c, AwaitGone, Terminate(c, v));
    t := Lingering(env, t, v, Terminate(c, v));
    states, events := t.states, t.events;
  }

  lemma Lingering(env: PodEnv, t: PodHistory, v: Volume, c: Cluster) returns (t': PodHistory)
    requires PodReached(env, t, v, AwaitGone, c) && !env.waitsEnd
    ensures PodReached(env, t', v, Rest(Removed), c.(secrets := c.secrets - {v})) && t'.origin == t.origin
  {
    t' := LogRequest(env, t, v, AwaitGone, c, Force, c);
    t' := LogRequest(env, t', v, Force, c, AwaitForced, c);
    t' := LogRequest(env, t', v, AwaitForced, c, DropSecret, c);
    t' := LogRequest(env, t', v, DropSecret, c, Rest(Removed), c.(secrets := c.secrets - {v}));
  }

  /** RemovePod takes any failure of Get for absence and deletes the secret of a live pod. */
  lemma FailedGetLosesSecret(v: Volume, node: string) returns (states: seq<PodSystem>, events: seq<PodEvent>)
    ensures IsPodRun(PodEnv(false, true), states, events) && states[0] == EMPTY && PodInv(EMPTY)
    ensures v in states[|events|].cluster.pods && v !in states[|events|].cluster.secrets
  {
    var env := PodEnv(false, true);
    var c := Cluster(map[v := Pod(node, false, true)], {v});
    var t := CreateOnEmpty(env, v, node);
    t := LogRequest(env, t, v, Rest(Created(node)), c, Find, c);
    t := LogRequest(env, t, v, Find, c, DropSecret, c);
    t := LogRequest(env, t, v, DropSecret, c, Rest(Removed), c.(secrets := c.secrets - {v}));
    states, events := t.states, t.events;
  }
}
