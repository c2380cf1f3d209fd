/** The daemon object's recovery pass (internal/daemon/reconcile.go), proved to do
    to the store, the timers and the runtimes what Recovery says. */
module Daemon {
  import opened Types
  import opened Machine
  import opened R = Recovery
  import Db = Store
  import Scheduler
  import Timers

  class Daemon {
    const configs: string -> Config
    const store: Db.Store
    const timers: Timers.Manager
    var runtimes: map<string, Runtime>

    constructor (configs: string -> Config, store: Db.Store, timers: Timers.Manager)
      ensures this.configs == configs && this.store == store && this.timers == timers && runtimes == map[]
    {
      this.configs, this.store, this.timers, runtimes := configs, store, timers, map[];
    }

    function View(): World
      reads this, store, timers
    {
      World(store.rows, timers.View(), runtimes)
    }

    /** Restores one task; `task` is its row as listed, replaced by the recovered row
        when it was interrupted. */
    method ReconcileTask(rec: Rec, id: string, env: RecoverEnv) returns (ok: bool)
      requires Timers.Inv(timers.View())
      requires id in store.rows && store.rows[id] == rec && rec.task.id == id
      modifies this, store, timers
      ensures var r := R.ReconcileTask(configs(id), rec, env);
              && ok == r.ok
              && View() == Apply(old(View()), id, r, env.armAt)
      ensures Timers.Inv(timers.View())
    {
      if !env.snapshotOk || !env.providerOk {
        assert store.rows[id := rec] == store.rows;
        return false;
      }
      var task := rec.task;
      if task.status.Running? {
        var recovered := RecoverInterrupted(rec, id, env);
        if recovered.None? {
          assert store.rows[id := rec] == store.rows;
          return false;
        }
        task := recovered.value;
      }
      assert store.rows[id := store.rows[id]] == store.rows;
      var policy := BuildPolicy(configs(id), env.startAt);
      if policy.None? || !env.rulesOk {
        return false;
      }
      runtimes := runtimes[id := Runtime(Sup(policy.value, task, None, None, false), [])];
      match task.status {
        case Waiting =>
          var wake := env.armAt;
          if task.nextWakeAt.Some? {
            wake := task.nextWakeAt.value;
          }
          timers.ArmTask(id, wake, env.armAt);
        case Pending =>
          var posted := runtimes[id].(queue := runtimes[id].queue + [Start]);
          assert posted == Runtime(Sup(policy.value, task, None, None, false), [Start]);
          runtimes := runtimes[id := posted];
          assert runtimes == old(runtimes)[id := posted];
        case _ =>
      }
      ok := true;
    }

    /** Closes the orphaned attempt and reschedules; the new row, or None on error. */
    method RecoverInterrupted(rec: Rec, id: string, env: RecoverEnv) returns (task: Option<Task>)
      requires id in store.rows && store.rows[id] == rec && rec.task.id == id
      modifies store
      ensures var r := R.RecoverInterrupted(configs(id), rec, env);
              && (task.Some? <==> r.Some?)
              && store.rows == old(store.rows)[id := if r.Some? then r.value else rec]
              && (r.Some? ==> task.value == r.value.task)
    {
      assert store.rows[id := rec] == store.rows;
      var policy := BuildPolicy(configs(id), env.now);
      if policy.None? {
        return None;
      }
      var wake := env.now;
      if configs(id).onInterrupt != "resume_now" {
        wake := Scheduler.NextWake(policy.value.scheduler, rec.task.totalAttempts, None, env.now, env.draw);
      }
      if !env.listOk {
        return None;
      }
      var open := Orphaned(rec.attempts, env.now);
      var next := InterruptedRow(rec.task, wake, env.now);
      var evs := InterruptedEvents(wake, env.now);
      Db.ScriptIsCommit(rec, open, evs, next, env.fault);
      ghost var before := store.rows;
      var ok := store.UpdateTaskTx(id, Db.Script(open, evs, next), env.fault);
      if !ok {
        return None;
      }
      assert store.rows == before[id := store.rows[id]] by {
        assert forall other :: other != id ==> (other in store.rows <==> store.Get(other).Some?);
        assert forall other :: other != id ==> (other in before <==> old(store.Get(other)).Some?);
        assert forall other :: other != id && other in before ==> store.Get(other).value == store.rows[other];
        assert store.Get(id).value == store.rows[id];
      }
      task := Some(next);
    }

    /** Restores every non-terminal task without a live runtime, in listing order,
        from the rows as they were listed. */
    method Reconcile(ids: seq<string>, envs: string -> RecoverEnv)
      requires Timers.Inv(timers.View()) && Distinct(ids)
      requires forall id :: id in ids ==> id in store.rows && store.rows[id].task.id == id
      modifies this, store, timers
      ensures View() == ReconcileAll(configs, old(View()), ids, envs)
      ensures Timers.Inv(timers.View())
    {
      var listed := store.rows;
      for i := 0 to |ids|
        invariant Timers.Inv(timers.View())
        invariant View() == ReconcileAll(configs, old(View()), ids[..i], envs)
        invariant forall j :: i <= j < |ids| ==> ids[j] in store.rows && store.rows[ids[j]] == listed[ids[j]]
      {
        var id := ids[i];
        assert ids[..i + 1][..i] == ids[..i];
        if !Terminal(listed[id].task.status) && id !in runtimes {
          var _ := ReconcileTask(listed[id], id, envs(id));
        }
      }
      assert ids[..|ids|] == ids;
    }
  }
}
