/**
 CreatePod and RemovePod over the cluster's object store: the per-volume pod
 zerofs-volume-<id> and its config secret zerofs-config-<id>.

 Reads are linearizable.  Calls of different volumes interleave, one call is in flight for
 each volume, the driver may crash between any two requests, and outside actors may delete
 pods.  Each bounded wait ends in "seen" or "gave up".
 */
module PodProtocol {
  import opened NodeHost

  datatype PodEnv = PodEnv(
    getTruthful: bool,  // Get fails only when the object does not exist
    waitsEnd: bool)     // the wait after a force delete ends with the pod gone

  datatype Pod = Pod(node: string, terminating: bool, ready: bool)

  datatype Cluster = Cluster(pods: map<Volume, Pod>, secrets: set<Volume>)

  datatype PodOutcome = Untouched | Created(node: string) | CreateFailed | Removed | RemoveFailed | Cut

  datatype PodPc =
    | Rest(last: PodOutcome)
    // CreatePod
    | Configure(node: string)     // config map, password and credentials
    | PutSecret(node: string)
    | LookUp(node: string)
    | Evict(node: string)         // the pod runs on another node
    | AwaitEvicted(node: string)
    | Launch(node: string)
    | AwaitReady(node: string)
    // RemovePod
    | Find
    | Delete
    | AwaitGone
    | Force
    | AwaitForced
    | DropSecret

  datatype PodSystem = PodSystem(cluster: Cluster, calls: map<Volume, PodPc>)

  function PcOf(s: PodSystem, v: Volume): PodPc {
    if v in s.calls then s.calls[v] else Rest(Untouched)
  }

  function Terminate(c: Cluster, v: Volume): Cluster
    requires v in c.pods
  {
    c.(pods := c.pods[v := c.pods[v].(terminating := true)])
  }

  function DropPod(c: Cluster, v: Volume): Cluster {
    c.(pods := c.pods - {v})
  }

  predicate CreateAct(env: PodEnv, c: Cluster, pc: PodPc, v: Volume, c': Cluster, pc': PodPc) {
    match pc
    case Configure(n) =>
      c' == c && (pc' == PutSecret(n) || pc' == Rest(CreateFailed))
    case PutSecret(n) =>
      || (c' == c.(secrets := c.secrets + {v}) && pc' == LookUp(n))
      || (c' == c && pc' == Rest(CreateFailed))
    case LookUp(n) =>
      && c' == c
      && (|| (v in c.pods && pc' == if c.pods[v].node == n then AwaitReady(n) else Evict(n))
          || ((v in c.pods ==> !env.getTruthful) && pc' == Launch(n)))
    case Evict(n) =>
      || (v in c.pods && c' == Terminate(c, v) && pc' == AwaitEvicted(n))
      || (c' == c && pc' == Rest(CreateFailed))
    case AwaitEvicted(n) =>
      c' == c && pc' == Launch(n)
    case Launch(n) =>
      || (v !in c.pods && c' == c.(pods := c.pods[v := Pod(n, false, false)]) && pc' == AwaitReady(n))
      || (c' == c && pc' == Rest(CreateFailed))
    case AwaitReady(n) =>
      c' == c && ((v in c.pods && c.pods[v].ready && pc' == Rest(Created(n))) || pc' == Rest(CreateFailed))
    case _ => false
  }

  predicate RemoveAct(env: PodEnv, c: Cluster, pc: PodPc, v: Volume, c': Cluster, pc': PodPc) {
    match pc
    case Find =>
      && c' == c
      && ((v in c.pods && pc' == Delete) || ((v in c.pods ==> !env.getTruthful) && pc' == DropSecret))
    case Delete =>
      || (v in c.pods && c' == Terminate(c, v) && pc' == AwaitGone)
      || (v !in c.pods && c' == c && pc' == DropSecret)
      || (c' == c && pc' == Rest(RemoveFailed))
    case AwaitGone =>
      c' == c && ((v !in c.pods && pc' == DropSecret) || pc' == Force)
    case Force =>
      (c' == DropPod(c, v) || c' == c) && pc' == AwaitForced
    case AwaitForced =>
      c' == c && (v in c.pods ==> !env.waitsEnd) && pc' == DropSecret
    case DropSecret =>
      (c' == c.(secrets := c.secrets - {v}) || c' == c) && pc' == Rest(Removed)
    case _ => false
  }

  predicate PodAct(env: PodEnv, c: Cluster, pc: PodPc, v: Volume, c': Cluster, pc': PodPc) {
    if pc.Rest? then c' == c && (pc'.Configure? || pc' == Find)
    else CreateAct(env, c, pc, v, c', pc') || RemoveAct(env, c, pc, v, c', pc')
  }

  datatype PodEvent =
    | Request(v: Volume)
    | OutsideDelete(v: Volume)
    | Vanish(v: Volume)
    | Report(v: Volume, ready: bool)
    | Restart

  function Cancel(pc: PodPc): PodPc {
    if pc.Rest? then pc else Rest(Cut)
  }

  predicate PodNext(env: PodEnv, s: PodSystem, s': PodSystem, e: PodEvent) {
    match e
    case Request(v) =>
      && PodAct(env, s.cluster, PcOf(s, v), v, s'.cluster, PcOf(s', v))
      && s'.calls == s.calls[v := PcOf(s', v)]
    case OutsideDelete(v) =>
      v in s.cluster.pods && s' == s.(cluster := Terminate(s.cluster, v))
    case Vanish(v) =>
      v in s.cluster.pods && s.cluster.pods[v].terminating && s' == s.(cluster := DropPod(s.cluster, v))
    case Report(v, ready) =>
      && v in s.cluster.pods
      && s' == s.(cluster := s.cluster.(pods := s.cluster.pods[v := s.cluster.pods[v].(ready := ready)]))
    case Restart =>
      s' == s.(calls := map v | v in s.calls :: Cancel(s.calls[v]))
  }

  predicate PodStepAt(env: PodEnv, states: seq<PodSystem>, events: seq<PodEvent>, i: nat)
    requires i < |events| && |states| == |events| + 1
  {
    PodNext(env, states[i], states[i + 1], events[i])
  }

  ghost predicate IsPodRun(env: PodEnv, states: seq<PodSystem>, events: seq<PodEvent>) {
    && |states| == |events| + 1
    && forall i: nat :: i < |events| ==> PodStepAt(env, states, events, i)
  }

  // ---- Invariant ----

  ghost predicate PodsHaveSecrets(c: Cluster) {
    forall v :: v in c.pods ==> v in c.secrets
  }

  predicate PodLocal(c: Cluster, pc: PodPc, v: Volume) {
    match pc
    case LookUp(_) => v in c.secrets
    case Evict(_) => v in c.secrets
    case AwaitEvicted(_) => v in c.secrets
    case Launch(_) => v in c.secrets
    case AwaitReady(n) => v in c.secrets && (v in c.pods ==> c.pods[v].node == n)
    case DropSecret => v !in c.pods
    case Rest(Created(n)) => v in c.secrets && (v in c.pods ==> c.pods[v].node == n)
    case Rest(Removed) => v !in c.pods
    case _ => true
  }

  ghost predicate PodInv(s: PodSystem) {
    PodsHaveSecrets(s.cluster) && forall v :: PodLocal(s.cluster, PcOf(s, v), v)
  }

  lemma PodActKeeps(env: PodEnv, c: Cluster, pc: PodPc, v: Volume, c': Cluster, pc': PodPc)
    requires env.getTruthful && env.waitsEnd
    requires PodsHaveSecrets(c) && PodLocal(c, pc, v) && PodAct(env, c, pc, v, c', pc')
    ensures PodsHaveSecrets(c') && PodLocal(c', pc', v)
    ensures forall u :: u != v ==> (u in c'.secrets <==> u in c.secrets) && (u in c'.pods <==> u in c.pods)
    ensures forall u :: u != v && u in c.pods ==> c'.pods[u] == c.pods[u]
  {
  }

  lemma PodNextKeepsInv(env: PodEnv, s: PodSystem, s': PodSystem, e: PodEvent)
    requires env.getTruthful && env.waitsEnd && PodInv(s) && PodNext(env, s, s', e)
    ensures PodInv(s')
  {
    if e.Request? {
      var v := e.v;
      assert PodLocal(s.cluster, PcOf(s, v), v);
      PodActKeeps(env, s.cluster, PcOf(s, v), v, s'.cluster, PcOf(s', v));
      forall u ensures PodLocal(s'.cluster, PcOf(s', u), u) {
        assert PodLocal(s.cluster, PcOf(s, u), u);
      }
    } else {
      forall u ensures PodLocal(s'.cluster, PcOf(s', u), u) {
        assert PodLocal(s.cluster, PcOf(s, u), u);
      }
    }
  }

  /** In every state of every run a volume's pod has its config secret; after CreatePod has
      succeeded the pod, if it is there, is on the requested node; after RemovePod has
      finished there is none. */
  lemma {:induction false} PodsAlwaysHaveSecrets(env: PodEnv, states: seq<PodSystem>, events: seq<PodEvent>, i: nat)
    requires env.getTruthful && env.waitsEnd && IsPodRun(env, states, events) && PodInv(states[0]) && i < |states|
    ensures PodInv(states[i])
    ensures forall v :: v in states[i].cluster.pods ==> v in states[i].cluster.secrets
    ensures forall v :: PcOf(states[i], v) == Rest(Removed) ==> v !in states[i].cluster.pods
  {
    if i > 0 {
      PodsAlwaysHaveSecrets(env, states, events, i - 1);
      assert PodStepAt(env, states, events, i - 1);
      PodNextKeepsInv(env, states[i - 1], states[i], events[i - 1]);
    }
    forall v | PcOf(states[i], v) == Rest(Removed) ensures v !in states[i].cluster.pods {
      assert PodLocal(states[i].cluster, PcOf(states[i], v), v);
    }
  }

  /** The moment CreatePod succeeds, the pod exists on the requested node, is ready and has
      its secret, whatever outside deletions happened before. */
  lemma CreatedPodRunsOnNode(env: PodEnv, states: seq<PodSystem>, events: seq<PodEvent>, i: nat,
                             v: Volume, node: string)
    requires env.getTruthful && env.waitsEnd && IsPodRun(env, states, events) && PodInv(states[0]) && i < |events|
    requires events[i] == Request(v) && PcOf(states[i + 1], v) == Rest(Created(node))
    ensures var c := states[i + 1].cluster;
            v in c.pods && c.pods[v].node == node && c.pods[v].ready && v in c.secrets
  {
    PodsAlwaysHaveSecrets(env, states, events, i);
    assert PodStepAt(env, states, events, i);
    assert PodLocal(states[i].cluster, PcOf(states[i], v), v);
  }
}
