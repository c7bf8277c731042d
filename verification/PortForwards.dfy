/**
 * The port-forward registry: records, process handles, the id counter and the saved file.
 * Handlers run one after the other here. Whether a spawned `kubectl` comes up is a parameter.
 */
module PortForwards {
  import opened Wrappers

  const U64_MAX: nat := 0xffff_ffff_ffff_ffff
  const RUNNING := "running"
  const PAUSED := "paused"

  type U64 = n: nat | n <= U64_MAX

  /** Addition that wraps around, as `fetch_add` does. */
  function Succ(n: U64): U64 {
    if n == U64_MAX then 0 else n + 1
  }

  datatype Request = Request(
    namespace: string, resourceType: string, resourceName: string, localPort: nat, remotePort: nat)

  datatype PortForward = PortForward(id: U64, request: Request, status: string, createdAt: string)

  /** What `try_wait` would say about a child process. */
  datatype Process = Alive | Exited

  datatype Persisted = Persisted(clusterKey: string, nextId: U64, items: seq<PortForward>)

  type Forwards = map<U64, PortForward>

  function Running(forwards: Forwards): Forwards {
    map id | id in forwards && forwards[id].status == RUNNING :: forwards[id]
  }

  /** `items` lists the records of `forwards`, each once, in some order. */
  ghost predicate Lists(items: seq<PortForward>, forwards: Forwards) {
    && (forall i :: 0 <= i < |items| ==> items[i].id in forwards && forwards[items[i].id] == items[i])
    && (forall i, j :: 0 <= i < j < |items| ==> items[i].id != items[j].id)
    && (forall id :: id in forwards ==> forwards[id] in items)
  }

  lemma ListedExactly(items: seq<PortForward>, forwards: Forwards, item: PortForward)
    requires Lists(items, forwards)
    ensures item in items <==> item.id in forwards && forwards[item.id] == item
  {
  }

  /** `file` is what saving these running forwards writes. */
  ghost predicate SaveOf(file: Persisted, clusterKey: string, nextId: U64, forwards: Forwards) {
    file.clusterKey == clusterKey && file.nextId == nextId && Lists(file.items, Running(forwards))
  }

  // ── What a restore makes of a file ───────────────────────────────────────

  function Revived(item: PortForward): PortForward {
    item.(status := RUNNING)
  }

  /** The records restored from the items whose respawn succeeded; a later item wins over an earlier one. */
  function Restored(items: seq<PortForward>, up: seq<bool>): Forwards
    requires |up| == |items|
  {
    if items == [] then map[]
    else
      var last := |items| - 1;
      var before := Restored(items[..last], up[..last]);
      if up[last] then before[items[last].id := Revived(items[last])] else before
  }

  function MaxId(items: seq<PortForward>, up: seq<bool>, savedNext: U64): U64
    requires |up| == |items|
  {
    if items == [] then savedNext
    else
      var last := |items| - 1;
      var before := MaxId(items[..last], up[..last], savedNext);
      if up[last] && items[last].id >= before then Succ(items[last].id) else before
  }

  function RestoredNextId(items: seq<PortForward>, up: seq<bool>, savedNext: U64): U64
    requires |up| == |items|
  {
    var max := MaxId(items, up, savedNext);
    if max < 1 then 1 else max
  }

  /** A handle for every restored record. */
  function Handles(restored: Forwards): map<U64, Process> {
    map id | id in restored :: Alive
  }

  lemma PushAfter<V>(a: map<U64, V>, b: map<U64, V>, id: U64, v: V)
    ensures (a + b)[id := v] == a + b[id := v]
  {
  }

  lemma RestoreItem(items: seq<PortForward>, up: seq<bool>, savedNext: U64, i: nat)
    requires |up| == |items| && i < |items|
    ensures var r, r' := Restored(items[..i], up[..i]), Restored(items[..i + 1], up[..i + 1]);
            && r' == (if up[i] then r[items[i].id := Revived(items[i])] else r)
            && Handles(r') == if up[i] then Handles(r)[items[i].id := Alive] else Handles(r)
    ensures var m := MaxId(items[..i], up[..i], savedNext);
            MaxId(items[..i + 1], up[..i + 1], savedNext) == if up[i] && items[i].id >= m then Succ(items[i].id) else m
  {
    assert items[..i + 1][..i] == items[..i] && up[..i + 1][..i] == up[..i];
  }

  /**
   * Restored records carry their own key, run, and stay below the counter unless the largest id of all
   * is among them.
   */
  lemma {:induction false} RestoredInv(items: seq<PortForward>, up: seq<bool>, savedNext: U64)
    requires |up| == |items|
    ensures var r := Restored(items, up);
            forall id :: id in r ==> r[id].id == id && r[id].status == RUNNING
    ensures var r, max := Restored(items, up), MaxId(items, up, savedNext);
            U64_MAX !in r ==> max >= savedNext && forall id :: id in r ==> id < max
  {
    if items == [] {
    } else {
      var last := |items| - 1;
      RestoredInv(items[..last], up[..last], savedNext);
      var before, m := Restored(items[..last], up[..last]), MaxId(items[..last], up[..last], savedNext);
      assert Restored(items, up) == if up[last] then before[items[last].id := Revived(items[last])] else before;
      assert MaxId(items, up, savedNext) == if up[last] && items[last].id >= m then Succ(items[last].id) else m;
      hide Restored, MaxId;
    }
  }

  /** The item came up, and no later one of the same id did. */
  predicate IsLastUp(items: seq<PortForward>, up: seq<bool>, i: int)
    requires |up| == |items|
  {
    0 <= i < |items| && up[i] && forall j :: i < j < |items| && up[j] ==> items[j].id != items[i].id
  }

  lemma LastUpGrows(items: seq<PortForward>, up: seq<bool>, i: int)
    requires |up| == |items| > 0
    ensures var last := |items| - 1;
      IsLastUp(items, up, i) <==>
        if i == last then up[last]
        else IsLastUp(items[..last], up[..last], i) && !(up[last] && items[i].id == items[last].id)
  {
    var last := |items| - 1;
    var init, upInit := items[..last], up[..last];
    assert forall j :: 0 <= j < last ==> init[j] == items[j] && upInit[j] == up[j];
  }

  /** The record is the item as it was saved, running. */
  predicate IsRunningAgain(record: PortForward, item: PortForward) {
    && record.id == item.id && record.status == "running"
    && record.request == item.request && record.createdAt == item.createdAt
  }

  /** An id is restored exactly if an item of that id came up, as the last such item, running. */
  lemma {:induction false} RestoredExact(items: seq<PortForward>, up: seq<bool>, id: U64)
    requires |up| == |items|
    ensures id in Restored(items, up) <==> exists i :: IsLastUp(items, up, i) && items[i].id == id
    ensures forall i :: IsLastUp(items, up, i) && items[i].id == id && id in Restored(items, up) ==>
      IsRunningAgain(Restored(items, up)[id], items[i])
  {
    if items == [] {
    } else {
      var last := |items| - 1;
      var init, upInit := items[..last], up[..last];
      RestoredExact(init, upInit, id);
      forall i ensures IsLastUp(items, up, i) <==>
          if i == last then up[last] else IsLastUp(init, upInit, i) && !(up[last] && items[i].id == items[last].id) {
        LastUpGrows(items, up, i);
      }
      if up[last] && items[last].id == id {
        assert IsLastUp(items, up, last);
      } else if id in Restored(init, upInit) {
        var i :| IsLastUp(init, upInit, i) && init[i].id == id;
        assert IsLastUp(items, up, i);
      }
    }
  }

  /** The next id is the saved one, or one more than the id of an item that came up. */
  lemma {:induction false} NextIdIsAfterAnItem(items: seq<PortForward>, up: seq<bool>, savedNext: U64)
    requires |up| == |items|
    ensures var max := MaxId(items, up, savedNext);
      max == savedNext
      || exists i :: 0 <= i < |items| && up[i] && max == if items[i].id == U64_MAX then 0 else items[i].id + 1
  {
    if items == [] {
    } else {
      var last := |items| - 1;
      NextIdIsAfterAnItem(items[..last], up[..last], savedNext);
    }
  }

  lemma {:induction false} RestoredOf(items: seq<PortForward>, up: seq<bool>, forwards: Forwards)
    requires |up| == |items|
    requires forall i :: 0 <= i < |items| ==> items[i].id in forwards && forwards[items[i].id] == items[i]
    requires forall i :: 0 <= i < |items| ==> items[i].status == RUNNING
    ensures var r := Restored(items, up); forall id :: id in r ==> id in forwards && r[id] == forwards[id]
    ensures (forall i :: 0 <= i < |up| ==> up[i]) ==>
      forall i :: 0 <= i < |items| ==> items[i].id in Restored(items, up)
  {
    if items == [] {
    } else {
      var last := |items| - 1;
      RestoredOf(items[..last], up[..last], forwards);
      assert Revived(items[last]) == items[last];
      forall i | (forall k :: 0 <= k < |up| ==> up[k]) && 0 <= i < |items| ensures items[i].id in Restored(items, up) {
        assert i < last ==> items[..last][i] == items[i];
      }
    }
  }

  lemma {:induction false} MaxIdOfSave(items: seq<PortForward>, up: seq<bool>, savedNext: U64)
    requires |up| == |items|
    requires forall i :: 0 <= i < |items| ==> items[i].id < savedNext
    ensures MaxId(items, up, savedNext) == savedNext
  {
    if items == [] {
    } else {
      var last := |items| - 1;
      MaxIdOfSave(items[..last], up[..last], savedNext);
    }
  }

  /**
   * Restoring a saved file never lowers the next id and yields a subset of the running forwards,
   * all of them when every respawn succeeds; then saving again writes the same content.
   */
  lemma PersistenceRoundTrip(file: Persisted, clusterKey: string, nextId: U64, forwards: Forwards, up: seq<bool>)
    requires SaveOf(file, clusterKey, nextId, forwards) && |up| == |file.items|
    requires nextId >= 1 && forall id :: id in forwards ==> forwards[id].id == id && id < nextId
    ensures RestoredNextId(file.items, up, file.nextId) == nextId
    ensures Restored(file.items, up).Items <= Running(forwards).Items
    ensures (forall i :: 0 <= i < |up| ==> up[i]) ==>
              && Restored(file.items, up) == Running(forwards)
              && forall again :: SaveOf(again, clusterKey, nextId, Restored(file.items, up)) ==>
                   forall item :: item in again.items <==> item in file.items
  {
    var items, running := file.items, Running(forwards);
    MaxIdOfSave(items, up, nextId);
    RestoredOf(items, up, running);
    var r := Restored(items, up);
    if forall i :: 0 <= i < |up| ==> up[i] {
      forall id | id in running ensures id in r {
        var i :| 0 <= i < |items| && items[i] == running[id];
      }
      assert r.Keys == running.Keys;
      assert r == running;
      assert Running(r) == running;
      forall again, item | SaveOf(again, clusterKey, nextId, r) ensures item in again.items <==> item in items {
        ListedExactly(again.items, running, item);
        ListedExactly(items, running, item);
      }
    }
  }

  /** An id has a process handle iff its forward runs; keys are the records' ids, all below the counter. */
  ghost predicate RegistryInv(forwards: Forwards, processes: map<U64, Process>, nextId: U64) {
    && (forall id :: id in processes <==> id in forwards && forwards[id].status == RUNNING)
    && (forall id :: id in forwards ==> forwards[id].id == id && id < nextId)
    && (forall id :: id in forwards ==> forwards[id].status == RUNNING || forwards[id].status == PAUSED)
  }

  lemma InvAfterRestore(forwards: Forwards, processes: map<U64, Process>, nextId: U64, saved: Persisted, up: seq<bool>)
    requires RegistryInv(forwards, processes, nextId) && |up| == |saved.items|
    ensures var r := Restored(saved.items, up);
            var next := RestoredNextId(saved.items, up, saved.nextId);
            && (forall id :: id in forwards + r ==> (forwards + r)[id].id == id)
            && (RegistryInv(forwards + r, processes + Handles(r), next) <==>
                U64_MAX !in r && forall id :: id in forwards ==> id < next)
  {
    RestoredInv(saved.items, up, saved.nextId);
    hide Restored, MaxId;
    var r := Restored(saved.items, up);
    assert U64_MAX in r ==> U64_MAX in forwards + r;
    assert forall id :: id in forwards ==> id in forwards + r;
  }

  /** Dropping handles and pausing their forwards keeps the invariant. */
  lemma PauseKeepsInv(forwards: Forwards, processes: map<U64, Process>, nextId: U64, ids: set<U64>, after: Forwards)
    requires RegistryInv(forwards, processes, nextId) && after.Keys == forwards.Keys && ids <= processes.Keys
    requires forall id :: id in forwards ==>
      after[id] == if id in ids && forwards[id].status == RUNNING then forwards[id].(status := PAUSED) else forwards[id]
    ensures RegistryInv(after, processes - ids, nextId)
  {
    assert |RUNNING| != |PAUSED|;
  }

  // ── The registry ─────────────────────────────────────────────────────────

  datatype Operation =
    | ListForwards
    | CreateForward(request: Request, up: bool, now: string)
    | StopForward(stopped: U64)
    | DeleteForward(deleted: U64)
    | RestartForward(restarted: U64, spawns: bool)
    | ProcessEnds(ended: U64)

  class PortForwardState {
    var forwards: Forwards
    var processes: map<U64, Process>
    /** `PORT_FORWARD_ID` */
    var nextId: U64
    /** The storage file; `None` when it is missing or cannot be parsed. */
    var storage: Option<Persisted>
    const clusterKey: string

    constructor (storage: Option<Persisted>, clusterKey: string)
      ensures forwards == map[] && processes == map[] && nextId == 1
      ensures this.storage == storage && this.clusterKey == clusterKey
      ensures Inv()
    {
      this.forwards, this.processes, this.nextId := map[], map[], 1;
      this.storage, this.clusterKey := storage, clusterKey;
    }

    ghost predicate Inv()
      reads this
    {
      RegistryInv(forwards, processes, nextId)
    }

    /** The file holds the cluster key, the next id and the running forwards. */
    ghost predicate Synced()
      reads this
    {
      storage.Some? && SaveOf(storage.value, clusterKey, nextId, forwards)
    }

    method Save()
      requires forall id :: id in forwards ==> forwards[id].id == id
      modifies this`storage
      ensures Synced()
    {
      var items: seq<PortForward> := [];
      var todo := forwards.Keys;
      while todo != {}
        invariant todo <= forwards.Keys
        invariant forall i :: 0 <= i < |items| ==>
          items[i].id !in todo && items[i].id in forwards && forwards[items[i].id] == items[i]
        invariant forall i :: 0 <= i < |items| ==> items[i].status == RUNNING
        invariant forall i, j :: 0 <= i < j < |items| ==> items[i].id != items[j].id
        invariant forall id :: id in forwards && id !in todo && forwards[id].status == RUNNING ==> forwards[id] in items
        decreases todo
      {
        var id :| id in todo;
        if forwards[id].status == RUNNING {
          items := items + [forwards[id]];
        }
        todo := todo - {id};
      }
      storage := Some(Persisted(clusterKey, nextId, items));
    }

    /** Drops the handles of exited processes. */
    method DropExited() returns (exited: set<U64>)
      modifies this`processes
      ensures exited == set id | id in old(processes) && old(processes)[id] == Exited
      ensures processes == old(processes) - exited
    {
      exited := {};
      var todo := processes.Keys;
      while todo != {}
        invariant todo <= processes.Keys && processes == old(processes)
        invariant forall id :: id in exited <==> id in processes && id !in todo && processes[id] == Exited
        decreases todo
      {
        var id :| id in todo;
        if processes[id] == Exited {
          exited := exited + {id};
        }
        todo := todo - {id};
      }
      processes := processes - exited;
    }

    method PauseAll(exited: set<U64>)
      modifies this`forwards
      ensures forwards == map id | id in old(forwards) ::
                if id in exited && old(forwards)[id].status == RUNNING then old(forwards)[id].(status := PAUSED)
                  else old(forwards)[id]
    {
      var todo := exited;
      while todo != {}
        invariant todo <= exited
        invariant forwards.Keys == old(forwards).Keys
        invariant forall id :: id in forwards ==>
          forwards[id] == if id in exited && id !in todo && old(forwards)[id].status == RUNNING
                          then old(forwards)[id].(status := PAUSED) else old(forwards)[id]
        decreases todo
      {
        var id :| id in todo;
        if id in forwards && forwards[id].status == RUNNING {
          forwards := forwards[id := forwards[id].(status := PAUSED)];
        }
        todo := todo - {id};
      }
    }

    /** Drops the handles of exited processes and pauses their forwards. */
    method Reconcile()
      requires Inv()
      modifies this`forwards, this`processes, this`storage
      ensures Inv()
      ensures processes == map id | id in old(processes) && old(processes)[id] == Alive :: Alive
      ensures forwards == map id | id in old(forwards) ::
                if id in old(processes) && old(processes)[id] == Exited then old(forwards)[id].(status := PAUSED)
                  else old(forwards)[id]
      ensures old(Synced()) ==> Synced()
    {
      var exited := DropExited();
      if exited == {} {
        assert forall id :: id in old(processes) ==> id !in exited;
        assert processes == old(processes) && forwards == old(forwards);
        return;
      }
      PauseAll(exited);
      PauseKeepsInv(old(forwards), old(processes), nextId, exited, forwards);
      Save();
    }

    /** A running child ends by itself. */
    method ProcessExits(id: U64)
      requires Inv() && id in processes
      modifies this`processes
      ensures processes == old(processes)[id := Exited]
      ensures Inv() && (old(Synced()) ==> Synced())
    {
      processes := processes[id := Exited];
    }

    method List() returns (records: set<PortForward>)
      requires Inv()
      modifies this`forwards, this`processes, this`storage
      ensures Inv() && (old(Synced()) ==> Synced())
      ensures records == forwards.Values
      ensures forall id :: id in processes ==> processes[id] == Alive
    {
      Reconcile();
      records := forwards.Values;
    }

    /** A new forward gets an id that no forward has; the invariant survives iff the counter does not wrap around. */
    method Create(request: Request, up: bool, now: string) returns (created: Option<PortForward>)
      requires Inv()
      modifies this`forwards, this`processes, this`nextId, this`storage
      ensures created.Some? <==> (request.resourceType == "pod" || request.resourceType == "service") && up
      ensures created.None? ==>
        && forwards == old(forwards) && processes == old(processes)
        && nextId == old(nextId) && storage == old(storage)
      ensures created.Some? ==>
                && created.value == PortForward(old(nextId), request, RUNNING, now)
                && old(nextId) !in old(forwards)
                && forwards == old(forwards)[old(nextId) := created.value]
                && processes == old(processes)[old(nextId) := Alive]
                && nextId == Succ(old(nextId))
                && Synced()
      ensures Inv() <==> created.None? || old(nextId) < U64_MAX
      ensures old(Synced()) ==> Synced()
    {
      if request.resourceType != "pod" && request.resourceType != "service" {
        return None;
      }
      if !up {
        return None;
      }
      var id := nextId;
      nextId := Succ(nextId);
      var forward := PortForward(id, request, RUNNING, now);
      forwards := forwards[id := forward];
      processes := processes[id := Alive];
      Save();
      assert id in forwards;
      return Some(forward);
    }

    method Stop(id: U64)
      requires Inv()
      modifies this`forwards, this`processes, this`storage
      ensures Inv() && Synced()
      ensures processes == old(processes) - {id}
      ensures forwards == if id in old(forwards) then old(forwards)[id := old(forwards)[id].(status := PAUSED)]
        else old(forwards)
    {
      processes := processes - {id};
      if id in forwards {
        forwards := forwards[id := forwards[id].(status := PAUSED)];
      }
      Save();
    }

    method Delete(id: U64)
      requires Inv()
      modifies this`forwards, this`processes, this`storage
      ensures Inv() && Synced()
      ensures processes == old(processes) - {id} && forwards == old(forwards) - {id}
    {
      processes := processes - {id};
      forwards := forwards - {id};
      Save();
    }

    /** Starts a paused forward again under its old id; a failed start changes nothing. */
    method Restart(id: U64, up: bool) returns (ok: bool)
      requires Inv()
      modifies this`forwards, this`processes, this`storage
      ensures Inv() && (ok || old(Synced()) ==> Synced())
      ensures ok <==> id in old(forwards) && old(forwards)[id].status == PAUSED && up
      ensures ok ==>
        && forwards == old(forwards)[id := old(forwards)[id].(status := RUNNING)]
        && processes == old(processes)[id := Alive]
      ensures !ok ==> forwards == old(forwards) && processes == old(processes) && storage == old(storage)
    {
      if id !in forwards {
        return false;
      }
      var existing := forwards[id];
      if existing.status == RUNNING {
        return false;
      }
      processes := processes - {id};
      assert processes == old(processes);
      if !up {
        return false;
      }
      forwards := forwards[id := existing.(status := RUNNING)];
      processes := processes[id := Alive];
      Save();
      return true;
    }

    method RespawnItems(saved: Persisted, up: seq<bool>) returns (maxId: U64)
      requires |up| == |saved.items|
      modifies this`forwards, this`processes
      ensures forwards == old(forwards) + Restored(saved.items, up)
      ensures processes == old(processes) + Handles(Restored(saved.items, up))
      ensures maxId == MaxId(saved.items, up, saved.nextId)
    {
      var items := saved.items;
      maxId := saved.nextId;
      assert Restored(items[..0], up[..0]) == map[] && Handles(map[]) == map[];
      for i := 0 to |items|
        invariant forwards == old(forwards) + Restored(items[..i], up[..i])
        invariant processes == old(processes) + Handles(Restored(items[..i], up[..i]))
        invariant maxId == MaxId(items[..i], up[..i], saved.nextId)
      {
        ghost var r := Restored(items[..i], up[..i]);
        RestoreItem(items, up, saved.nextId, i);
        hide *;
        var item := items[i];
        if up[i] {
          PushAfter(old(forwards), r, item.id, Revived(item));
          PushAfter(old(processes), Handles(r), item.id, Alive);
          forwards := forwards[item.id := Revived(item)];
          processes := processes[item.id := Alive];
          if item.id >= maxId {
            maxId := Succ(item.id);
          }
        }
      }
      assert items[..|items|] == items && up[..|items|] == up;
    }

    /**
     * Restores the saved forwards when the file is there and belongs to this cluster. `up` says
     * which respawns succeed. Run first, on the empty registry, it establishes the invariant for
     * every file unless it restores the largest id there is; run later, it keeps it iff moreover
     * it does not set the counter back below a forward that was created before.
     */
    method Restore(up: seq<bool>) returns (done: bool)
      requires Inv()
      requires storage.Some? ==> |up| == |storage.value.items|
      modifies this`forwards, this`processes, this`nextId, this`storage
      ensures done <==> old(storage).Some? && old(storage).value.clusterKey == clusterKey
      ensures !done ==>
        && forwards == old(forwards) && processes == old(processes)
        && nextId == old(nextId) && storage == old(storage)
      ensures done ==>
                var items, next := old(storage).value.items, old(storage).value.nextId;
                && forwards == old(forwards) + Restored(items, up)
                && processes == old(processes) + Handles(Restored(items, up))
                && nextId == RestoredNextId(items, up, next)
                && Synced()
                && (Inv() <==>
                      && U64_MAX !in Restored(items, up)
                      && forall id :: id in old(forwards) ==> id < RestoredNextId(items, up, next))
      ensures !done ==> Inv()
    {
      if storage.None? || storage.value.clusterKey != clusterKey {
        return false;
      }
      var saved := storage.value;
      var maxId := RespawnItems(saved, up);
      hide Restored, MaxId, RegistryInv, SaveOf, Handles;
      nextId := if maxId < 1 then 1 else maxId;
      InvAfterRestore(old(forwards), old(processes), old(nextId), saved, up);
      Save();
      return true;
    }

    /**
     * Any run of handlers and exiting processes keeps the registry's invariant and, once the file
     * agrees with it, that agreement, as long as the run cannot exhaust the ids.
     */
    method RunHandlers(ops: seq<Operation>)
      requires Inv() && nextId + |ops| <= U64_MAX
      modifies this
      ensures Inv() && old(nextId) <= nextId
      ensures old(Synced()) ==> Synced()
    {
      for i := 0 to |ops|
        invariant Inv() && old(nextId) <= nextId <= old(nextId) + i
        invariant old(Synced()) ==> Synced()
      {
        match ops[i] {
          case ListForwards =>
            var _ := List();
          case CreateForward(request, up, now) =>
            var _ := Create(request, up, now);
          case StopForward(id) =>
            Stop(id);
          case DeleteForward(id) =>
            Delete(id);
          case RestartForward(id, up) =>
            var _ := Restart(id, up);
          case ProcessEnds(id) =>
            if id in processes {
              ProcessExits(id);
            }
        }
      }
    }
  }
}
