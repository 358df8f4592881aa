/**
 CreatePod and RemovePod of pkg/csi/zerofs.go as imperative code over the cluster's pods and
 secrets.  As with the node service, the requests a mounter makes are appended to a run of
 the pod protocol, together with what the cluster does while the mounter waits.
 */
module ZerofsMounter {
  import opened NodeHost
  import opened PodProtocol
  import opened PodHistories

  datatype CreateWorld = CreateWorld(
    configured: bool,   // config map, password and credentials can be read
    secretPut: bool,    // the config secret can be created or updated
    getFails: bool,     // Get on an existing pod fails all the same
    deleteWorks: bool,  // the pod on another node can be deleted ...
    evicted: bool,      // ... and is gone when the wait ends
    createWorks: bool,
    becomesReady: bool) // the pod turns ready before the wait gives up

  datatype RemoveWorld = RemoveWorld(
    getFails: bool,
    deleteWorks: bool,
    goneInTime: bool,      // gone within the first wait
    forceWorks: bool,      // else the force delete takes it away ...
    goneAfterForce: bool,  // ... or it goes during the second wait
    secretDeleted: bool)

  /** Wherever the mounter's calls have led, every pod has its config secret. */
  lemma MounterKeepsSecrets(env: PodEnv, t: PodHistory, v: Volume, pc: PodPc, c: Cluster)
    requires PodReached(env, t, v, pc, c) && env.getTruthful && env.waitsEnd && PodInv(t.origin)
    ensures forall u :: u in c.pods ==> u in c.secrets
    ensures pc == Rest(Removed) ==> v !in c.pods
  {
    PodsAlwaysHaveSecrets(env, t.states, t.events, |t.events|);
  }

  class Mounter {
    var pods: map<Volume, Pod>
    var secrets: set<Volume>
    ghost const env: PodEnv
    ghost var run: PodHistory

    ghost function Now(): Cluster
      reads this
    {
      Cluster(pods, secrets)
    }

    ghost predicate Ready(v: Volume, pc: PodPc)
      reads this
    {
      PodReached(env, run, v, pc, Now())
    }

    constructor (c: Cluster, ghost env: PodEnv, ghost t: PodHistory, ghost v: Volume, ghost last: PodOutcome)
      requires PodReached(env, t, v, Rest(last), c)
      ensures this.env == env && run == t && Now() == c && Ready(v, Rest(last))
    {
      pods, secrets := c.pods, c.secrets;
      this.env, run := env, t;
    }

    /** CreatePod: succeeds exactly when the configuration is there, the secret can be put, a pod
        stands on the node, or can be created there because none is in the way or the one on
        another node can be deleted and is gone in time, and it turns ready.  The secret is put
        before any pod is; whatever happens, no pod on another node outlives a delete that worked
        and a wait that ended. */
    method CreatePod(v: Volume, node: string, w: CreateWorld, ghost last: PodOutcome) returns (ok: bool)
      requires Ready(v, Rest(last)) && (env.getTruthful ==> !w.getFails)
      modifies this`pods, this`secrets, this`run
      ensures ok == (&& w.configured && w.secretPut
                     && (if v !in old(pods) then w.createWorks
                         else && !w.getFails
                              && (old(pods)[v].node == node || (w.deleteWorks && w.evicted && w.createWorks)))
                     && (w.becomesReady || (v in old(pods) && old(pods)[v].node == node && old(pods)[v].ready)))
      ensures ok ==> v in pods && pods[v].node == node && pods[v].ready && v in secrets
      ensures !w.configured || !w.secretPut ==> Now() == old(Now())
      ensures w.configured && w.secretPut ==> secrets == old(secrets) + {v}
      ensures (&& w.configured && w.secretPut && !w.getFails && v in old(pods) && old(pods)[v].node != node
               && w.deleteWorks && w.evicted) ==>
                if w.createWorks then v in pods && pods[v].node == node else v !in pods
      ensures pods - {v} == old(pods) - {v} && secrets - {v} == old(secrets) - {v}
      ensures run.origin == old(run.origin)
      ensures Ready(v, Rest(if ok then Created(node) else CreateFailed))
    {
      run := LogRequest(env, run, v, Rest(last), Now(), Configure(node), Now());
      if !w.configured {
        run := LogRequest(env, run, v, Configure(node), Now(), Rest(CreateFailed), Now());
        return false;
      }
      ok := PutConfigSecret(v, node, w.secretPut);
      if ok {
        ok := PlacePod(v, node, w);
      }
      if ok {
        ok := WaitForPodReady(v, node, w.becomesReady);
      }
    }

    method PutConfigSecret(v: Volume, node: string, works: bool) returns (ok: bool)
      requires Ready(v, Configure(node))
      modifies this`secrets, this`run
      ensures ok == works && secrets == if ok then old(secrets) + {v} else old(secrets)
      ensures run.origin == old(run.origin)
      ensures ok ==> Ready(v, LookUp(node))
      ensures !ok ==> Ready(v, Rest(CreateFailed))
    {
      run := LogRequest(env, run, v, Configure(node), Now(), PutSecret(node), Now());
      ghost var before := Now();
      ok := works;
      if ok {
        secrets := secrets + {v};
      }
      run := LogRequest(env, run, v, PutSecret(node), before, if ok then LookUp(node) else Rest(CreateFailed), Now());
    }

    /** Finds the pod in place, evicts one from another node, or creates it. */
    method PlacePod(v: Volume, node: string, w: CreateWorld) returns (ok: bool)
      requires Ready(v, LookUp(node)) && (env.getTruthful ==> !w.getFails)
      modifies this`pods, this`run
      ensures ok == if v !in old(pods) then w.createWorks
                    else !w.getFails && (old(pods)[v].node == node || (w.deleteWorks && w.evicted && w.createWorks))
      ensures ok ==> v in pods && pods[v].node == node
      ensures ok ==> pods[v].ready == (v in old(pods) && old(pods)[v].node == node && old(pods)[v].ready)
      ensures !w.getFails && v in old(pods) && old(pods)[v].node != node && w.deleteWorks && w.evicted && !ok ==>
                v !in pods
      ensures pods - {v} == old(pods) - {v}
      ensures run.origin == old(run.origin)
      ensures ok ==> Ready(v, AwaitReady(node))
      ensures !ok ==> Ready(v, Rest(CreateFailed))
    {
      if v in pods && !w.getFails {
        if pods[v].node == node {
          run := LogRequest(env, run, v, LookUp(node), Now(), AwaitReady(node), Now());
          return true;
        }
        ok := EvictPod(v, node, w.deleteWorks, w.evicted);
        if !ok {
          return;
        }
      } else {
        run := LogRequest(env, run, v, LookUp(node), Now(), Launch(node), Now());
      }
      ok := LaunchPod(v, node, w.createWorks);
    }

    /** Deletes the pod on the wrong node and waits, going on even if it lingers. */
    method EvictPod(v: Volume, node: string, works: bool, evicted: bool) returns (ok: bool)
      requires Ready(v, LookUp(node)) && v in pods && pods[v].node != node
      modifies this`pods, this`run
      ensures ok == works
      ensures v in pods <==> !(works && evicted)
      ensures pods - {v} == old(pods) - {v}
      ensures run.origin == old(run.origin)
      ensures ok ==> Ready(v, Launch(node))
      ensures !ok ==> Ready(v, Rest(CreateFailed))
    {
      run := LogRequest(env, run, v, LookUp(node), Now(), Evict(node), Now());
      ok := works;
      if !ok {
        run := LogRequest(env, run, v, Evict(node), Now(), Rest(CreateFailed), Now());
        return;
      }
      ghost var before := Now();
      pods := pods[v := pods[v].(terminating := true)];
      run := LogRequest(env, run, v, Evict(node), before, AwaitEvicted(node), Now());
      if evicted {
        run := LogVanish(env, run, v, AwaitEvicted(node), Now());
        pods := pods - {v};
      }
      run := LogRequest(env, run, v, AwaitEvicted(node), Now(), Launch(node), Now());
    }

    method LaunchPod(v: Volume, node: string, works: bool) returns (ok: bool)
      requires Ready(v, Launch(node))
      modifies this`pods, this`run
      ensures ok == (works && v !in old(pods))
      ensures pods == if ok then old(pods)[v := Pod(node, false, false)] else old(pods)
      ensures run.origin == old(run.origin)
      ensures ok ==> Ready(v, AwaitReady(node))
      ensures !ok ==> Ready(v, Rest(CreateFailed))
    {
      ghost var before := Now();
      ok := works && v !in pods;
      if ok {
        pods := pods[v := Pod(node, false, false)];
      }
      run := LogRequest(env, run, v, Launch(node), before, if ok then AwaitReady(node) else Rest(CreateFailed), Now());
    }

    method WaitForPodReady(v: Volume, node: string, becomesReady: bool) returns (ok: bool)
      requires Ready(v, AwaitReady(node)) && v in pods
      modifies this`pods, this`run
      ensures ok == (becomesReady || old(pods)[v].ready)
      ensures pods == if becomesReady then old(pods)[v := old(pods)[v].(ready := true)] else old(pods)
      ensures run.origin == old(run.origin)
      ensures Ready(v, Rest(if ok then Created(node) else CreateFailed))
    {
      if becomesReady {
        run := LogReady(env, run, v, AwaitReady(node), Now());
        pods := pods[v := pods[v].(ready := true)];
      }
      ok := pods[v].ready;
      run := LogRequest(env, run, v, AwaitReady(node), Now(), Rest(if ok then Created(node) else CreateFailed), Now());
    }

    /** RemovePod: an error is returned exactly when an existing pod cannot be deleted; then
        nothing has changed.  Otherwise the secret goes, after the pod has been deleted, force
        deleted and waited for. */
    method RemovePod(v: Volume, w: RemoveWorld, ghost last: PodOutcome) returns (ok: bool)
      requires Ready(v, Rest(last)) && (env.getTruthful ==> !w.getFails)
      requires env.waitsEnd ==> w.goneInTime || w.forceWorks || w.goneAfterForce
      modifies this`pods, this`secrets, this`run
      ensures ok == !(v in old(pods) && !w.getFails && !w.deleteWorks)
      ensures !ok ==> Now() == old(Now())
      ensures ok ==>
                (v in pods <==> v in old(pods) && (w.getFails || !(w.goneInTime || w.forceWorks || w.goneAfterForce)))
      ensures ok ==> secrets == if w.secretDeleted then old(secrets) - {v} else old(secrets)
      ensures pods - {v} == old(pods) - {v} && secrets - {v} == old(secrets) - {v}
      ensures run.origin == old(run.origin)
      ensures Ready(v, Rest(if ok then Removed else RemoveFailed))
    {
      run := LogRequest(env, run, v, Rest(last), Now(), Find, Now());
      if v in pods && !w.getFails {
        ok := DeletePod(v, w);
        if !ok {
          return;
        }
      } else {
        run := LogRequest(env, run, v, Find, Now(), DropSecret, Now());
      }
      ghost var before := Now();
      if w.secretDeleted {
        secrets := secrets - {v};
      }
      run := LogRequest(env, run, v, DropSecret, before, Rest(Removed), Now());
      ok := true;
    }

    method DeletePod(v: Volume, w: RemoveWorld) returns (ok: bool)
      requires Ready(v, Find) && v in pods
      requires env.waitsEnd ==> w.goneInTime || w.forceWorks || w.goneAfterForce
      modifies this`pods, this`run
      ensures ok == w.deleteWorks
      ensures !ok ==> pods == old(pods)
      ensures ok ==> (v in pods <==> !(w.goneInTime || w.forceWorks || w.goneAfterForce))
      ensures pods - {v} == old(pods) - {v}
      ensures run.origin == old(run.origin)
      ensures ok ==> Ready(v, DropSecret)
      ensures !ok ==> Ready(v, Rest(RemoveFailed))
    {
      run := LogRequest(env, run, v, Find, Now(), Delete, Now());
      ok := w.deleteWorks;
      if !ok {
        run := LogRequest(env, run, v, Delete, Now(), Rest(RemoveFailed), Now());
        return;
      }
      ghost var before := Now();
      pods := pods[v := pods[v].(terminating := true)];
      run := LogRequest(env, run, v, Delete, before, AwaitGone, Now());
      if w.goneInTime {
        run := LogVanish(env, run, v, AwaitGone, Now());
        pods := pods - {v};
        run := LogRequest(env, run, v, AwaitGone, Now(), DropSecret, Now());
      } else {
        ForceDelete(v, w.forceWorks, w.goneAfterForce);
      }
    }

    method ForceDelete(v: Volume, works: bool, goneAfter: bool)
      requires Ready(v, AwaitGone) && v in pods && pods[v].terminating && (env.waitsEnd ==> works || goneAfter)
      modifies this`pods, this`run
      ensures pods == if works || goneAfter then old(pods) - {v} else old(pods)
      ensures run.origin == old(run.origin)
      ensures Ready(v, DropSecret)
    {
      run := LogRequest(env, run, v, AwaitGone, Now(), Force, Now());
      ghost var before := Now();
      if works {
        pods := pods - {v};
      }
      run := LogRequest(env, run, v, Force, before, AwaitForced, Now());
      if !works && goneAfter {
        run := LogVanish(env, run, v, AwaitForced, Now());
        pods := pods - {v};
      }
      run := LogRequest(env, run, v, AwaitForced, Now(), DropSecret, Now());
    }
  }
}
