/** The TokenQuota reconciler over the shared cache and the status subresource. */
module Controller {
  import opened Common
  import opened QuotaApi
  import opened LedgerSpec
  import opened LedgerCache
  import opened SpendRuns
  import opened ReconcileSpec
  import SpendFormat

  /** The status the API server holds; the environment decides how each write ends. */
  class StatusStore {
    var stored: Status

    constructor (st: Status)
      ensures stored == st
    {
      stored := st;
    }

    method Update(st: Status, outcome: WriteOutcome)
      modifies this
      ensures stored == Durable(old(stored), [Attempt(st, outcome)])
    {
      if outcome.Written? {
        stored := st;
      }
    }
  }

  lemma RunNothing(l: Ledger)
    ensures Run(l, []) == l
  {
  }

  lemma NothingWritten(stored: Status)
    ensures Durable(stored, []) == stored
  {
  }

  lemma {:induction false} DurableConcat(stored: Status, a: seq<Attempt>, b: seq<Attempt>)
    ensures Durable(Durable(stored, a), b) == Durable(stored, a + b)
  {
    if b == [] {
      assert a + b == a;
    } else {
      assert (a + b)[..|a + b| - 1] == a + b[..|b| - 1];
      DurableConcat(stored, a, b[..|b| - 1]);
    }
  }

  class Reconciler {
    const cache: Cache
    const api: StatusStore

    constructor (cache: Cache, api: StatusStore)
      ensures this.cache == cache && this.api == api
    {
      this.cache, this.api := cache, api;
    }

    /** Sync, then everything other goroutines land before the next ledger access. */
    method SyncAndYield(q: Quota, env: Env)
      requires cache.Valid() && env.Fair()
      modifies cache, cache.entries.Values
      ensures cache.Valid() && fresh(cache.entries.Values - old(cache.entries.Values))
      ensures cache.View() == Run(old(cache.View()), SyncEvents(q, env))
    {
      ghost var l := cache.View();
      cache.Sync(q, env.clock.sync);
      RunSnoc(l, [], Synced(q, env.clock.sync));
      assert [] + [Synced(q, env.clock.sync)] == [Synced(q, env.clock.sync)];
      cache.RecordAll(env.during);
      RunConcat(l, [Synced(q, env.clock.sync)], env.during);
    }

    method Renew(q: Quota, env: Env) returns (result: Result)
      requires cache.Valid() && env.Fair()
      modifies cache.entries.Values, api
      ensures cache.Valid() && cache.entries == old(cache.entries)
      ensures cache.View() == Run(old(cache.View()), [Zeroed(q.namespace, q.target, env.clock.reset)] + env.after)
      ensures api.stored == Durable(old(api.stored), Renewing(q, env).attempts)
      ensures result == Renewing(q, env).result
    {
      hide Run, NextRenewal;
      ghost var l := cache.View();
      ghost var zeroed := Zeroed(q.namespace, q.target, env.clock.reset);
      cache.Reset(q.namespace, q.target, env.clock.reset);
      RunSnoc(l, [], zeroed);
      assert [] + [zeroed] == [zeroed] && Run(l, []) == l by { RunNothing(l); }
      var next := NextRenewal(env.clock.next, q.interval, env.monthLater);
      var st := q.status;
      st := st.(spentUSD := "0");
      st := st.(spentTokens := 0);
      st := st.(runCount := 0);
      st := st.(state := Active);
      st := st.(nextRenewal := Some(next));
      cache.RecordAll(env.after);
      RunConcat(l, [zeroed], env.after);
      api.Update(st, env.first);
      if !env.first.Written? {
        return Error;
      }
      return Requeue(next - env.clock.until);
    }

    /** A missing deadline is set and written first. */
    method EnsureDeadline(q: Quota, env: Env) returns (st: Status, ok: bool)
      modifies api
      ensures st == WithDeadline(q.status, NextRenewal(env.clock.next, q.interval, env.monthLater))
      ensures ok <==> q.status.nextRenewal.Some? || env.first.Written?
      ensures api.stored == Durable(old(api.stored), if q.status.nextRenewal.None? then [Attempt(st, env.first)] else [])
    {
      st, ok := q.status, true;
      if st.nextRenewal.None? {
        var next := NextRenewal(env.clock.next, q.interval, env.monthLater);
        st := st.(nextRenewal := Some(next));
        if st.state.Unset? {
          st := st.(state := Active);
        }
        api.Update(st, env.first);
        ok := env.first.Written?;
      }
    }

    /** The entry's fields are copied into the status and written, if there is an entry. */
    method ReportEntry(q: Quota, st: Status, env: Env) returns (failed: bool)
      requires cache.Valid()
      modifies api
      ensures var k, l := q.LedgerKey(), cache.View();
        && api.stored == Durable(old(api.stored),
             if k in l then [Attempt(Reported(st, l[k], env.clock.updated), env.second)] else [])
        && (failed <==> k in l && env.second.Failed?)
    {
      hide SpendFormat.Print, Durable;
      var entry := cache.Get(q.namespace, q.target);
      failed := false;
      if entry != null {
        var reported := st;
        reported := reported.(spentUSD := SpendFormat.Print(entry.spentUSD));
        reported := reported.(spentTokens := entry.spentTokens);
        reported := reported.(runCount := entry.runCount);
        reported := reported.(state := entry.state);
        reported := reported.(lastUpdated := Some(env.clock.updated));
        api.Update(reported, env.second);
        failed := env.second.Failed?;
      } else {
        assert Durable(api.stored, []) == api.stored by { NothingWritten(api.stored); }
      }
    }

    /** Deadline if missing, report of the ledger entry, requeue time. */
    method Report(q: Quota, env: Env, ghost l: Ledger) returns (result: Result)
      requires cache.Valid() && env.Fair() && cache.View() == Run(l, SyncEvents(q, env))
      modifies cache.entries.Values, api
      ensures cache.Valid() && cache.entries == old(cache.entries)
      ensures cache.View() == Run(l, Reporting(l, q, env).events)
      ensures api.stored == Durable(old(api.stored), Reporting(l, q, env).attempts)
      ensures result == Reporting(l, q, env).result
    {
      hide Run, RequeueAfter, Reported, WithDeadline, Durable, SyncEvents, NextRenewal;
      var st, ok := EnsureDeadline(q, env);
      if !ok {
        return Error;
      }
      ghost var k, l' := q.LedgerKey(), cache.View();
      var failed := ReportEntry(q, st, env);
      ghost var initial := if q.status.nextRenewal.None? then [Attempt(st, env.first)] else [];
      ghost var reports := if k in l' then [Attempt(Reported(st, l'[k], env.clock.updated), env.second)] else [];
      DurableConcat(old(api.stored), initial, reports);
      RunConcat(l, SyncEvents(q, env), env.after);
      cache.RecordAll(env.after);
      if failed {
        return Error;
      }
      return Requeue(RequeueAfter(st.nextRenewal, env.clock.until));
    }

    /** The object read has the requested namespace and name. */
    method Reconcile(namespace: string, name: string, read: GetOutcome, env: Env) returns (result: Result)
      requires cache.Valid() && env.Fair()
      requires read.Found? ==> read.quota.namespace == namespace && read.quota.name == name
      modifies cache, cache.entries.Values, api
      ensures cache.Valid() && fresh(cache.entries.Values - old(cache.entries.Values))
      ensures var effect := ReconcileSpec.Reconcile(old(cache.View()), namespace, name, read, env);
        && cache.View() == Run(old(cache.View()), effect.events)
        && api.stored == Durable(old(api.stored), effect.attempts)
        && result == effect.result
    {
      ghost var l := cache.View();
      match read {
        case NotFound =>
          cache.Delete(namespace, name);
          RunSnoc(l, [], Deleted(namespace, name));
          assert [] + [Deleted(namespace, name)] == [Deleted(namespace, name)];
          return Done;
        case GetFailed =>
          return Error;
        case Found(q) =>
          SyncAndYield(q, env);
          if q.status.nextRenewal.Some? && env.clock.due > q.status.nextRenewal.value {
            RunConcat(l, SyncEvents(q, env), [Zeroed(q.namespace, q.target, env.clock.reset)] + env.after);
            assert SyncEvents(q, env) + ([Zeroed(q.namespace, q.target, env.clock.reset)] + env.after)
                == Renewing(q, env).events;
            result := Renew(q, env);
          } else {
            result := Report(q, env, l);
          }
      }
    }
  }
}
