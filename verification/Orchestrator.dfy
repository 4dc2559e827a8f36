/**
 The orchestrator's sections under its mutexes, written as they run and proved to take exactly one step of the
 protocol. Goroutine-local variables live in `flights`, `late` and `firing`.
 */
module Orchestration {
  import opened Basics
  import opened Protocol
  import Watermarks

  // Steps as the fields they change.

  lemma SyncStep(s: State, accounts: set<Key>, unreadable: set<Key>, unwritable: set<Key>)
    requires s.progress.Keys <= accounts
    ensures Apply(s, Action.SyncTargets(accounts, unreadable, unwritable)) ==
      s.(progress := LoadAll(s, accounts, unreadable), rows := ResetStale(s, accounts, unreadable, unwritable))
  {
  }

  lemma StartStep(s: State, key: Key, force: bool, backfill: bool)
    ensures Apply(s, Start(key, force, backfill)) ==
      if WillQueue(s, key) then
        s.(progress := s.progress[key := EntryOf(s, key).(status := Queued)],
           flights := s.flights[s.nextId := Flight(QueuedJob(s, key, force, backfill),
                                                   Sending(EntryOf(s, key).updatedAt))],
           nextId := s.nextId + 1)
      else s.(progress := s.progress[key := EntryOf(s, key)])
  {
  }

  /** The state once the result of run `id` is published. */
  function Published(s: State, id: JobId, saved: bool): State
    requires Enabled(s, Finish(id, saved))
  {
    var key, entry := s.flights[id].job.key, FinalEntry(s, id);
    var marks := if ClearsMark(s, id) then s.fullResync - {key} else s.fullResync;
    s.(progress := s.progress[key := entry], cancels := s.cancels - {key}, fullResync := marks,
       savedResync := if ClearsMark(s, id) then marks else s.savedResync,
       rows := Save(s.rows, key, entry.status, entry.updatedAt, saved),
       flights := s.flights[id := Flight(s.flights[id].job, Finished)])
  }

  lemma FinishStep(s: State, id: JobId, saved: bool)
    requires Enabled(s, Finish(id, saved))
    ensures Apply(s, Finish(id, saved)) == Published(s, id, saved)
  {
  }

  lemma LogStep(s: State, platform: string, user: string)
    ensures Apply(s, Log(platform, user)) == s.(progress := Logged(s, platform, user))
  {
  }

  lemma CancelStep(s: State, platform: string, user: string, unwritable: set<Key>)
    ensures Apply(s, Cancel(platform, user, unwritable)) ==
      CancelAmong(s, Named(s, s.progress.Keys, platform, user), unwritable)
  {
  }

  lemma CancelAllStep(s: State)
    ensures Apply(s, CancelAll) ==
      DrainAmong(s.(cancelled := s.cancelled + s.cancels.Values, cancels := map[]), InChannelIds(s))
  {
    var t := s.(cancelled := s.cancelled + s.cancels.Values, cancels := map[]);
    assert KeysOf(t, InChannelIds(s)) == ChannelKeys(s);
  }

  lemma RenameStep(s: State, from: Key, to: Key)
    requires Enabled(s, Rename(from, to))
    ensures
      var marks := if from in s.fullResync then s.fullResync - {from} + {to} else s.fullResync;
      Apply(s, Rename(from, to)) ==
      s.(progress := Rekey(s.progress, from, to), rows := Rekey(s.rows, from, to), fullResync := marks,
         savedResync := if from in s.fullResync then marks else s.savedResync)
  {
  }

  /** What CancelScrape does to the targets `keys`. */
  function CancelAmong(s: State, keys: set<Key>, unwritable: set<Key>): State {
    s.(progress := Dequeue(s, keys), rows := DequeueRows(s, keys - unwritable),
       cancels := s.cancels - keys, firing := s.firing + CancelsOf(s, keys))
  }

  lemma CancelAmongNone(s: State, unwritable: set<Key>)
    ensures CancelAmong(s, {}, unwritable) == s
  {
    var t := CancelAmong(s, {}, unwritable);
    assert t.progress == s.progress && t.rows == s.rows && t.cancels == s.cancels && t.firing == s.firing;
  }

  lemma CancelAmongOne(s: State, key: Key, unwritable: set<Key>)
    requires key in s.progress
    ensures CancelAmong(s, {key}, unwritable) ==
      var t := s.(cancels := s.cancels - {key},
                  firing := if key in s.cancels then s.firing + {s.cancels[key]} else s.firing);
      if s.progress[key].status != Queued then t
      else t.(progress := s.progress[key := s.progress[key].(status := Idle)],
              rows := Save(s.rows, key, Idle, s.progress[key].updatedAt, key !in unwritable))
  {
    var t := CancelAmong(s, {key}, unwritable);
    assert t.firing == if key in s.cancels then s.firing + {s.cancels[key]} else s.firing;
    if s.progress[key].status == Queued {
      assert t.progress == s.progress[key := s.progress[key].(status := Idle)];
      assert t.rows == Save(s.rows, key, Idle, s.progress[key].updatedAt, key !in unwritable);
    } else {
      assert t.progress == s.progress && t.rows == s.rows;
    }
  }

  lemma CancelAmongOneMore(s: State, done: set<Key>, key: Key, unwritable: set<Key>)
    requires key in s.progress && key !in done
    ensures CancelAmong(CancelAmong(s, done, unwritable), {key}, unwritable) == CancelAmong(s, done + {key}, unwritable)
    ensures
      var t := CancelAmong(s, done, unwritable);
      key in t.progress && t.progress[key] == s.progress[key] && (key in t.cancels <==> key in s.cancels)
  {
    var t := CancelAmong(s, done, unwritable);
    var one := CancelAmong(t, {key}, unwritable);
    var both := CancelAmong(s, done + {key}, unwritable);
    assert one.progress == both.progress;
    assert one.rows == both.rows;
    assert one.cancels == both.cancels;
    assert one.firing == both.firing;
  }

  /** What draining the jobs `ids` from the channel does. */
  function DrainAmong(s: State, ids: set<JobId>): State {
    s.(progress := Dequeue(s, KeysOf(s, ids)), flights := s.flights - ids)
  }

  lemma DrainAmongOneMore(s: State, drained: set<JobId>, id: JobId)
    requires id in s.flights && id !in drained
    ensures id in DrainAmong(s, drained).flights
    ensures DrainAmong(DrainAmong(s, drained), {id}) == DrainAmong(s, drained + {id})
  {
    var one := DrainAmong(DrainAmong(s, drained), {id});
    var both := DrainAmong(s, drained + {id});
    assert one.progress == both.progress && one.flights == both.flights;
  }

  class Orchestrator {
    var now: Time
    var progress: map<Key, Entry>
    var cancels: map<Key, JobId>
    var blockUntil: map<string, Time>
    var fullResync: set<Key>
    var flights: map<JobId, Flight>
    var late: map<JobId, LateWrite>
    var firing: set<JobId>
    var cancelled: set<JobId>
    var nextId: JobId
    var active: int
    var limit: nat
    var twitterLock: Option<JobId>
    var rows: map<Key, Row>
    var savedResync: set<Key>

    function Now(): State
      reads this
    {
      State(now, progress, cancels, blockUntil, fullResync, flights, late, firing, cancelled, nextId, active, limit,
            twitterLock, rows, savedResync)
    }

    /** SavePersistedSyncInfo. */
    method SaveSyncInfo(key: Key, status: Status, at: Time, saved: bool)
      modifies this`rows
      ensures rows == Save(old(rows), key, status, at, saved)
    {
      if saved && key in rows {
        rows := rows[key := Row(status, at)];
      }
    }

    /** SyncTargets: the targets become those of the accounts; a step of the protocol when none is dropped. */
    method SyncTargets(accounts: set<Key>, unreadable: set<Key>, unwritable: set<Key>)
      modifies this`progress, this`rows
      ensures progress == LoadAll(old(Now()), accounts, unreadable)
      ensures rows == ResetStale(old(Now()), accounts, unreadable, unwritable)
      ensures old(progress.Keys) <= accounts ==>
        Now() == Apply(old(Now()), Action.SyncTargets(accounts, unreadable, unwritable))
    {
      ghost var was := Now();
      LoadTargets(accounts, unreadable, unwritable);
      progress := map k | k in progress.Keys && k in accounts :: progress[k];
      assert progress == LoadAll(was, accounts, unreadable);
      if was.progress.Keys <= accounts {
        SyncStep(was, accounts, unreadable, unwritable);
      }
    }

    /** The loop over the accounts: load what is new, and reset what an earlier process left active. */
    method LoadTargets(accounts: set<Key>, unreadable: set<Key>, unwritable: set<Key>)
      modifies this`progress, this`rows
      ensures progress.Keys == old(progress.Keys) + accounts
      ensures forall k | k in progress ::
        progress[k] == if k in old(progress) then old(progress)[k] else LoadEntry(old(Now()), k, unreadable)
      ensures rows == ResetStale(old(Now()), accounts, unreadable, unwritable)
    {
      ghost var was := Now();
      var todo := accounts;
      while todo != {}
        invariant todo <= accounts
        invariant progress.Keys == was.progress.Keys + (accounts - todo)
        invariant forall k | k in progress ::
                    progress[k] == if k in was.progress then was.progress[k] else LoadEntry(was, k, unreadable)
        invariant rows.Keys == was.rows.Keys
        invariant forall k | k in rows ::
                    rows[k] == if k !in todo && IsStale(was, k, accounts, unreadable, unwritable)
                               then was.rows[k].(status := Idle) else was.rows[k]
        decreases todo
      {
        var key :| key in todo;
        todo := todo - {key};
        if key !in progress {
          LoadTarget(key, key !in unreadable, key !in unwritable);
        }
      }
      assert rows == ResetStale(was, accounts, unreadable, unwritable);
    }

    method LoadTarget(key: Key, readable: bool, writable: bool)
      requires key !in progress
      modifies this`progress, this`rows
      ensures
        var stored := readable && key in old(rows);
        var entry := LoadEntry(old(Now()), key, if readable then {} else {key});
        && progress == old(progress)[key := entry]
        && rows == if stored && writable && IsActive(old(rows)[key].status)
                   then old(rows)[key := old(rows)[key].(status := Idle)] else old(rows)
    {
      var status, at := Idle, 0;
      if readable && key in rows {
        status, at := rows[key].status, rows[key].at;
      }
      if status == Running || status == Queued {
        status := Idle;
        SaveSyncInfo(key, Idle, at, writable);
      }
      progress := progress[key := Entry(status, at)];
    }

    /** StartScrape up to its channel send. */
    method StartScrape(key: Key, force: bool, backfill: bool)
      modifies this`progress, this`flights, this`nextId
      ensures Now() == Apply(old(Now()), Start(key, force, backfill))
    {
      StartStep(Now(), key, force, backfill);
      QueueScrape(key, force, backfill);
    }

    method QueueScrape(key: Key, force: bool, backfill: bool)
      modifies this`progress, this`flights, this`nextId
      ensures
        var was := old(Now());
        if WillQueue(was, key) then
          && progress == was.progress[key := EntryOf(was, key).(status := Queued)]
          && flights == was.flights[was.nextId := Flight(QueuedJob(was, key, force, backfill),
                                                         Sending(EntryOf(was, key).updatedAt))]
          && nextId == was.nextId + 1
        else progress == was.progress[key := EntryOf(was, key)] && flights == was.flights && nextId == was.nextId
    {
      if key !in progress {
        progress := progress[key := Entry(Idle, 0)];
      }
      var entry := progress[key];
      if entry.status == Running || entry.status == Queued {
        return;
      }
      if key.platform in blockUntil && now < blockUntil[key.platform] {
        return;
      }
      var forced := force;
      if key in fullResync && !forced {
        forced := true;
      }
      if entry.status == Failed || entry.status == Completed {
        entry := entry.(status := Idle);
      }
      if !forced {
        forced := backfill;
      }
      var lastSync := entry.updatedAt;
      if forced {
        lastSync := 0;
      }
      progress := progress[key := entry.(status := Queued)];
      flights := flights[nextId := Flight(Job(key, lastSync, forced), Sending(entry.updatedAt))];
      nextId := nextId + 1;
    }

    method AcquireSlot(id: JobId)
      requires Enabled(Now(), Acquire(id))
      modifies this`active, this`flights
      ensures Now() == Apply(old(Now()), Acquire(id))
    {
      active := active + 1;
      flights := flights[id := flights[id].(phase := Slotted)];
    }

    method ReleaseSlot(id: JobId)
      requires Enabled(Now(), Release(id))
      modifies this`active, this`flights
      ensures Now() == Apply(old(Now()), Release(id))
    {
      active := active - 1;
      flights := flights - {id};
    }

    /** The worker's re-check after it waited for a slot. */
    method Recheck(id: JobId) returns (skip: bool)
      requires id in flights && flights[id].phase.Slotted?
      modifies this`flights
      ensures Now() == Apply(old(Now()), Check(id))
      ensures skip <==> flights[id].phase.Leaving?
    {
      var key := flights[id].job.key;
      skip := key !in progress || progress[key].status != Queued;
      flights := flights[id := flights[id].(phase := if skip then Leaving else Checked)];
    }

    /** runScrape's first section. */
    method EnterRun(id: JobId)
      requires id in flights && flights[id].phase.Checked?
      modifies this`progress, this`flights
      ensures Now() == Apply(old(Now()), Enter(id))
    {
      var key := flights[id].job.key;
      if key !in progress {
        flights := flights[id := flights[id].(phase := Leaving)];
        return;
      }
      var prev := progress[key].updatedAt;
      progress := progress[key := progress[key].(status := Running)];
      flights := flights[id := flights[id].(phase := Entered(prev))];
    }

    /** runScrape's last section. */
    method FinishRun(id: JobId, saved: bool)
      requires id in flights && flights[id].phase.Settling?
      modifies this`progress, this`cancels, this`fullResync, this`savedResync, this`rows, this`flights
      ensures Now() == Apply(old(Now()), Finish(id, saved))
      ensures
        var Flight(Job(key, _, _), Settling(prev, start, outcome)) := old(flights[id]);
        && key in progress
        && progress[key].updatedAt == (if outcome.Success? then start else prev)
        && progress[key].status ==
             (if outcome.Success? then Completed else if id in cancelled then Idle else Failed)
        && (saved && key in old(rows) ==> rows == old(rows)[key := Row(progress[key].status, progress[key].updatedAt)])
    {
      Watermarks.FinishPublishes(Now(), id, saved);
      FinishStep(Now(), id, saved);
      PublishResult(id, saved);
    }

    method PublishResult(id: JobId, saved: bool)
      requires id in flights && flights[id].phase.Settling?
      modifies this`progress, this`cancels, this`fullResync, this`savedResync, this`rows, this`flights
      ensures Now() == Published(old(Now()), id, saved)
    {
      var job := flights[id].job;
      cancels := cancels - {job.key};
      var entry := ResultEntry(id);
      if flights[id].phase.outcome.Success? && job.forced {
        ClearMark(job.key);
      }
      progress := progress[job.key := entry];
      SaveSyncInfo(job.key, entry.status, entry.updatedAt, saved);
      flights := flights[id := Flight(job, Finished)];
    }

    method ClearMark(key: Key)
      modifies this`fullResync, this`savedResync
      ensures fullResync == old(fullResync) - {key}
      ensures savedResync == if key in old(fullResync) then fullResync else old(savedResync)
    {
      if key in fullResync {
        fullResync := fullResync - {key};
        savedResync := fullResync;
      }
    }

    /** The entry a finished run leaves: its old watermark unless it succeeded. */
    method ResultEntry(id: JobId) returns (entry: Entry)
      requires id in flights && flights[id].phase.Settling?
      ensures entry == FinalEntry(Now(), id)
    {
      var Settling(prev, start, outcome) := flights[id].phase;
      if outcome.Failure? {
        if id in cancelled {
          entry := Entry(Idle, prev);
        } else {
          entry := Entry(Failed, prev);
        }
      } else {
        entry := Entry(Completed, start);
      }
    }

    /** AppendTaskLog: without a platform the line goes to the active targets of that name, or to all of them. */
    method AppendTaskLog(platform: string, user: string)
      modifies this`progress
      ensures Now() == Apply(old(Now()), Log(platform, user))
    {
      LogStep(Now(), platform, user);
      TouchRunning(platform, user);
    }

    method TouchRunning(platform: string, user: string)
      modifies this`progress
      ensures progress == Logged(old(Now()), platform, user)
    {
      ghost var was := Now();
      var all := set k | k in progress.Keys && IsNamed(k, platform, user);
      var busy := set k | k in all && IsActive(progress[k].status);
      var todo := if platform != "" || busy == {} then all else busy;
      while todo != {}
        invariant progress.Keys == was.progress.Keys
        invariant todo <= all
        invariant forall k | k in progress && (k !in all || k in todo) :: progress[k] == was.progress[k]
        invariant forall k | k in all && k !in todo ::
                    progress[k] == if was.progress[k].status == Running then was.progress[k].(updatedAt := now)
                                   else was.progress[k]
        decreases todo
      {
        var key :| key in todo;
        todo := todo - {key};
        if progress[key].status == Running {
          progress := progress[key := progress[key].(updatedAt := now)];
        }
      }
      assert progress == Logged(was, platform, user);
    }

    /** One round of CancelScrape's loop, for a target it names. */
    method CancelTarget(key: Key, unwritable: set<Key>) returns (hit: bool)
      requires key in progress
      modifies this`progress, this`cancels, this`firing, this`rows
      ensures Now() == CancelAmong(old(Now()), {key}, unwritable)
      ensures hit <==> key in old(cancels) || old(progress)[key].status == Queued
    {
      CancelAmongOne(Now(), key, unwritable);
      hit := false;
      if key in cancels {
        firing := firing + {cancels[key]};
        cancels := cancels - {key};
        hit := true;
      }
      if progress[key].status == Queued {
        progress := progress[key := progress[key].(status := Idle)];
        SaveSyncInfo(key, Idle, progress[key].updatedAt, key !in unwritable);
        hit := true;
      }
    }

    /** CancelScrape's section; the collected cancel functions are called after it. */
    method CancelScrape(platform: string, user: string, unwritable: set<Key>) returns (hit: bool)
      modifies this`progress, this`cancels, this`firing, this`rows
      ensures Now() == Apply(old(Now()), Cancel(platform, user, unwritable))
      ensures hit <==> exists k | k in old(progress) && IsNamed(k, platform, user) ::
                         k in old(cancels) || old(progress)[k].status == Queued
    {
      ghost var was := Now();
      ghost var named := Named(was, progress.Keys, platform, user);
      ghost var done := {};
      hit := false;
      var todo := progress.Keys;
      CancelAmongNone(was, unwritable);
      while todo != {}
        invariant todo <= was.progress.Keys && done == named - todo
        invariant Now() == CancelAmong(was, done, unwritable)
        invariant hit <==> exists k | k in done :: k in was.cancels || was.progress[k].status == Queued
        decreases todo
      {
        var key :| key in todo;
        todo := todo - {key};
        if IsNamed(key, platform, user) {
          CancelAmongOneMore(was, done, key, unwritable);
          var one := CancelTarget(key, unwritable);
          hit := hit || one;
          done := done + {key};
        }
      }
      assert done == named;
      CancelStep(was, platform, user, unwritable);
    }

    /** One round of the drain loop of CancelAll. */
    method DrainOne(id: JobId)
      requires id in flights
      modifies this`progress, this`flights
      ensures Now() == DrainAmong(old(Now()), {id})
    {
      ghost var was := Now();
      var key := flights[id].job.key;
      if key in progress && progress[key].status == Queued {
        progress := progress[key := progress[key].(status := Idle)];
      }
      flights := flights - {id};
      assert progress == DrainAmong(was, {id}).progress;
    }

    /** CancelAll: every running scrape is cancelled, then the channel is drained. */
    method CancelEverything()
      modifies this`cancels, this`cancelled, this`progress, this`flights
      ensures Now() == Apply(old(Now()), CancelAll)
    {
      CancelAllStep(Now());
      cancelled := cancelled + cancels.Values;
      cancels := map[];
      DrainChannel();
    }

    /** The drain loop of CancelAll. */
    method DrainChannel()
      modifies this`progress, this`flights
      ensures Now() == DrainAmong(old(Now()), InChannelIds(old(Now())))
    {
      ghost var was := Now();
      var queue := InChannelIds(Now());
      ghost var drained := {};
      assert progress == DrainAmong(was, {}).progress;
      while queue != {}
        invariant drained !! queue && drained + queue == InChannelIds(was)
        invariant Now() == DrainAmong(was, drained)
        decreases queue
      {
        var id :| id in queue;
        DrainAmongOneMore(was, drained, id);
        DrainOne(id);
        queue := queue - {id};
        drained := drained + {id};
      }
      assert drained == InChannelIds(was);
    }

    /** RenameTarget: entry and mark follow the new handle, whatever handles they are. */
    method RenameTarget(from: Key, to: Key)
      modifies this`progress, this`fullResync, this`savedResync
      ensures progress == Rekey(old(progress), from, to)
      ensures fullResync ==
        if from in old(fullResync) then old(fullResync) - {from} + {to} else old(fullResync)
      ensures savedResync == if from in old(fullResync) then fullResync else old(savedResync)
    {
      if from in progress {
        var entry := progress[from];
        progress := progress - {from};
        progress := progress[to := entry];
      }
      if from in fullResync {
        fullResync := fullResync - {from};
        fullResync := fullResync + {to};
        savedResync := fullResync;
      }
    }

    /** The rename of an account past its handler's checks: the row, then the target. */
    method RenameAccount(from: Key, to: Key)
      requires Enabled(Now(), Rename(from, to))
      modifies this`progress, this`fullResync, this`savedResync, this`rows
      ensures Now() == Apply(old(Now()), Rename(from, to))
    {
      RenameStep(Now(), from, to);
      if from in rows {
        rows := (rows - {from})[to := rows[from]];
      }
      RenameTarget(from, to);
    }

    method RequestFullResync(key: Key)
      modifies this`fullResync, this`savedResync
      ensures Now() == Apply(old(Now()), RequestResync(key))
    {
      fullResync := fullResync + {key};
      savedResync := fullResync;
    }
  }
}
