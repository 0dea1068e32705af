/**
 * The in-memory subscription store (packages/server/src/engine/subscription-store.ts): entries by
 * id, and the entries a write affects.
 */
module SubscriptionStore {
  import opened Common

  /** An entry is told from any other by its instance, as an object is by its identity. */
  datatype Entry = Entry(instance: nat, owner: nat, id: string, path: string, args: string, tables: set<string>)

  /** `instances` counts the entries ever made. */
  datatype Store = Store(entries: map<string, Entry>, instances: nat)

  /** Register or replace by id; the entry is a fresh instance. */
  function Added(store: Store, owner: nat, id: string, path: string, args: string, tables: set<string>): Store {
    Store(store.entries[id := Entry(store.instances, owner, id, path, args, tables)], store.instances + 1)
  }

  /** A written table is among those the entry read. */
  predicate Affects(written: set<string>, e: Entry) {
    exists table :: table in written && table in e.tables
  }

  class InMemoryStore {
    var entries: map<string, Entry>
    var instances: nat

    ghost function Model(): Store
      reads this
    {
      Store(entries, instances)
    }

    constructor ()
      ensures Model() == Store(map[], 0)
    {
      entries, instances := map[], 0;
    }

    method Add(owner: nat, id: string, path: string, args: string, tables: set<string>)
      modifies this
      ensures Model() == Added(old(Model()), owner, id, path, args, tables)
    {
      entries := entries[id := Entry(instances, owner, id, path, args, tables)];
      instances := instances + 1;
    }

    method Remove(id: string)
      modifies this`entries
      ensures entries == old(entries) - {id}
    {
      entries := entries - {id};
    }

    function Get(id: string): Option<Entry>
      reads this
    {
      if id in entries then Some(entries[id]) else None
    }

    /** Exactly the live entries that read a written table, each once. */
    method GetAffected(written: set<string>) returns (affected: seq<Entry>)
      ensures forall e :: e in affected <==> (exists id :: id in entries && entries[id] == e) && Affects(written, e)
      ensures (forall i, j :: i in entries && j in entries && entries[i] == entries[j] ==> i == j) ==>
                forall i, j :: 0 <= i < j < |affected| ==> affected[i] != affected[j]
    {
      affected := [];
      var remaining := entries.Keys;
      while remaining != {}
        invariant remaining <= entries.Keys
        invariant forall e :: e in affected <==> (exists id :: id in entries && id !in remaining && entries[id] == e) && Affects(written, e)
        invariant (forall i, j :: i in entries && j in entries && entries[i] == entries[j] ==> i == j) ==>
                    forall i, j :: 0 <= i < j < |affected| ==> affected[i] != affected[j]
      {
        var id :| id in remaining;
        var entry := entries[id];
        var hit := ReadsAny(written, entry);
        assert hit ==> forall e :: e in affected + [entry] <==> e in affected || e == entry;
        if hit {
          affected := affected + [entry];
        }
        remaining := remaining - {id};
      }
    }

    method ReadsAny(written: set<string>, entry: Entry) returns (hit: bool)
      ensures hit <==> Affects(written, entry)
    {
      var waiting := written;
      while waiting != {}
        invariant waiting <= written
        invariant forall table :: table in written - waiting ==> table !in entry.tables
      {
        var table :| table in waiting;
        if table in entry.tables {
          return true;
        }
        waiting := waiting - {table};
      }
      hit := false;
    }

    /** In place, on the entry the store holds. */
    method SetTables(id: string, tables: set<string>)
      requires id in entries
      modifies this`entries
      ensures entries == old(entries)[id := old(entries)[id].(tables := tables)]
    {
      entries := entries[id := entries[id].(tables := tables)];
    }
  }
}
