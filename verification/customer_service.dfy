/** The customer service as objects: the table, the redis cache and the service that reads and writes
    both step by step. Each method is the operation of module Customers. */
module CustomerServing {
  import opened Wrappers
  import opened Customers

  class CustomerRepository {
    var rows: map<nat, Customer>
    var nextId: nat

    ghost function Now(): Table
      reads this
    {
      Table(rows, nextId)
    }

    constructor ()
      ensures Now() == EMPTY.table
    {
      rows, nextId := map[], 1;
    }

    method Create(name: string, email: string, now: nat, fails: bool) returns (r: Result<Customer, Error>)
      modifies this
      ensures var a := InsertRow(old(Now()), name, email, now, fails); Now() == a.table && r == a.reply
    {
      if fails {
        return Err(Internal);
      }
      var id := nextId;
      nextId := nextId + 1;
      if exists other :: other in rows && rows[other].email == email {
        return Err(DuplicateEmail);
      }
      rows := rows[id := Customer(id, name, email, now, now)];
      r := Ok(rows[id]);
    }

    method GetByID(id: nat, fails: bool) returns (r: Result<Customer, Error>)
      ensures r == SelectRow(Now(), id, fails)
    {
      if fails {
        r := Err(Internal);
      } else if id in rows {
        r := Ok(rows[id]);
      } else {
        r := Err(NotFound);
      }
    }

    method Update(id: nat, name: string, email: string, now: nat, fails: bool) returns (r: Result<Customer, Error>)
      modifies this`rows
      ensures var a := UpdateRow(old(Now()), id, name, email, now, fails); Now() == a.table && r == a.reply
    {
      if fails {
        return Err(Internal);
      }
      if id !in rows {
        return Err(NotFound);
      }
      if exists other :: other in rows && rows[other].email == email && other != id {
        assert Taken(Now(), email, Some(id));
        return Err(DuplicateEmail);
      }
      rows := rows[id := rows[id].(name := name, email := email, updatedAt := now)];
      r := Ok(rows[id]);
    }

    method Delete(id: nat, fails: bool) returns (r: Result<Customer, Error>)
      modifies this`rows
      ensures var a := DeleteRow(old(Now()), id, fails); Now() == a.table && r == a.reply
    {
      if fails {
        return Err(Internal);
      }
      if id !in rows {
        return Err(NotFound);
      }
      r := Ok(rows[id]);
      rows := rows - {id};
    }
  }

  // A copy, and when redis got it.
  datatype Cached = Cached(row: Customer, setAt: nat)

  function Rows(entries: map<nat, Cached>): map<nat, Customer> {
    map id | id in entries :: entries[id].row
  }

  // connected is false for the nil cache, on which every method does nothing.
  class CustomerCache {
    const connected: bool
    const ttl: nat
    var entries: map<nat, Cached>

    constructor (connected: bool, ttl: nat)
      ensures this.connected == connected && this.ttl == ttl && entries == map[]
    {
      this.connected, this.ttl, entries := connected, ttl, map[];
    }

    // Redis has a copy of id that is not older than ttl.
    predicate Hits(id: nat, now: nat)
      reads this
    {
      connected && id in entries && now <= entries[id].setAt + ttl
    }

    // A miss and a failure look the same.
    method Get(id: nat, now: nat, misses: bool) returns (c: Option<Customer>)
      ensures c == if Hits(id, now) && !misses then Some(entries[id].row) else None
    {
      if Hits(id, now) && !misses {
        c := Some(entries[id].row);
      } else {
        c := None;
      }
    }

    // The copy can be hit for ttl from now on, unless it is evicted or invalidated.
    method Set(c: Customer, now: nat, fails: bool)
      modifies this`entries
      ensures entries == if connected && !fails then old(entries)[c.id := Cached(c, now)] else old(entries)
      ensures connected && !fails ==> forall later: nat :: Hits(c.id, later) <==> later <= now + ttl
    {
      if connected && !fails {
        entries := entries[c.id := Cached(c, now)];
      }
    }

    // The service never learns whether the copy is gone.
    method Invalidate(id: nat, fails: bool)
      modifies this`entries
      ensures entries == if connected && !fails then old(entries) - {id} else old(entries)
      ensures !fails && connected ==> id !in entries
    {
      if connected && !fails {
        entries := entries - {id};
      }
    }
  }

  class CustomerService {
    const repo: CustomerRepository
    const cache: CustomerCache

    constructor (repo: CustomerRepository, cache: CustomerCache)
      ensures this.repo == repo && this.cache == cache
    {
      this.repo, this.cache := repo, cache;
    }

    ghost function Now(): Store
      reads this, repo, cache
    {
      Store(repo.Now(), Rows(cache.entries))
    }

    // What a nil cache holds is nothing.
    ghost predicate Valid()
      reads this, repo, cache
    {
      Coherent(Now()) && (!cache.connected ==> cache.entries == map[])
    }

    method Create(name: string, rawEmail: string, now: nat, dbFails: bool) returns (r: Result<Customer, Error>)
      requires Valid()
      modifies repo, cache
      ensures Valid() && Outcome(Now(), r) == Do(cache.connected, old(Now()), Op.Create(name, rawEmail, now, dbFails))
      ensures Created(old(repo.Now()), repo.Now(), name, rawEmail, now, dbFails, r)
    {
      hide Email.NewEmail, Email.TrimSpace, InsertRow, Coherent, Created;
      CreateMeans(cache.connected, Now(), Op.Create(name, rawEmail, now, dbFails));
      DoKeepsCoherent(cache.connected, Now(), Op.Create(name, rawEmail, now, dbFails));
      if Email.TrimSpace(name) == "" {
        return Err(InvalidName);
      }
      match Email.NewEmail(rawEmail) {
        case Err(_) => r := Err(InvalidEmail);
        case Ok(email) => r := repo.Create(name, email, now, dbFails);
      }
    }

    // Cache first, then the repository, then fill the cache. An absent row is not cached. A copy that is too old
    // is a miss.
    method GetByID(id: nat, now: nat, cacheMisses: bool, dbFails: bool, setFails: bool)
      returns (r: Result<Customer, Error>)
      requires Valid()
      modifies cache
      ensures Valid() && Outcome(Now(), r) ==
              Do(cache.connected, old(Now()),
                 Op.GetByID(id, cacheMisses || !old(cache.Hits(id, now)), dbFails, setFails))
      ensures !dbFails ==> r == SelectRow(repo.Now(), id, false)
      ensures !old(cache.Hits(id, now)) && r.Ok? && cache.connected && !setFails ==>
                forall later: nat :: cache.Hits(id, later) <==> later <= now + cache.ttl
    {
      GetMeans(cache.connected, Now(), Op.GetByID(id, cacheMisses || !cache.Hits(id, now), dbFails, setFails));
      DoKeepsCoherent(cache.connected, Now(),
                      Op.GetByID(id, cacheMisses || !cache.Hits(id, now), dbFails, setFails));
      var hit := cache.Get(id, now, cacheMisses);
      if hit.Some? {
        return Ok(hit.value);
      }
      r := repo.GetByID(id, dbFails);
      if r.Ok? {
        ghost var before := cache.entries;
        cache.Set(r.value, now, setFails);
        assert Rows(before[r.value.id := Cached(r.value, now)]) == Rows(before)[r.value.id := r.value];
      }
    }

    // The cache stays coherent exactly when no stale copy survives the invalidation.
    method Update(id: nat, name: string, rawEmail: string, now: nat, dbFails: bool, delFails: bool)
      returns (r: Result<Customer, Error>)
      requires Valid()
      modifies repo, cache
      ensures Outcome(Now(), r) ==
              Do(cache.connected, old(Now()), Op.Update(id, name, rawEmail, now, dbFails, delFails))
      ensures Valid() <==>
              !LeavesStale(cache.connected, old(Now()), Op.Update(id, name, rawEmail, now, dbFails, delFails))
      ensures Updated(old(repo.Now()), repo.Now(), id, name, rawEmail, now, dbFails, r)
    {
      hide Email.NewEmail, Email.TrimSpace, UpdateRow, Coherent, LeavesStale, Updated;
      UpdateMeans(cache.connected, Now(), Op.Update(id, name, rawEmail, now, dbFails, delFails));
      DoKeepsCoherent(cache.connected, Now(), Op.Update(id, name, rawEmail, now, dbFails, delFails));
      if Email.TrimSpace(name) == "" {
        return Err(InvalidName);
      }
      match Email.NewEmail(rawEmail) {
        case Err(_) => r := Err(InvalidEmail);
        case Ok(email) =>
          r := repo.Update(id, name, email, now, dbFails);
          if r.Ok? {
            cache.Invalidate(r.value.id, delFails);
            assert !cache.connected ==> cache.entries == map[] == old(cache.entries) - {r.value.id};
            RowsRemoved(old(cache.entries), r.value.id);
          }
      }
    }

    method Delete(id: nat, dbFails: bool, delFails: bool) returns (r: Result<Customer, Error>)
      requires Valid()
      modifies repo, cache
      ensures Outcome(Now(), r) == Do(cache.connected, old(Now()), Op.Delete(id, dbFails, delFails))
      ensures Valid() <==> !LeavesStale(cache.connected, old(Now()), Op.Delete(id, dbFails, delFails))
      ensures Deleted(old(repo.Now()), repo.Now(), id, dbFails, r)
    {
      hide DeleteRow, Coherent, LeavesStale, Deleted;
      DeleteMeans(cache.connected, Now(), Op.Delete(id, dbFails, delFails));
      DoKeepsCoherent(cache.connected, Now(), Op.Delete(id, dbFails, delFails));
      r := repo.Delete(id, dbFails);
      if r.Ok? {
        cache.Invalidate(id, delFails);
        assert !cache.connected ==> cache.entries == map[] == old(cache.entries) - {id};
        RowsRemoved(old(cache.entries), id);
      }
    }
  }

  lemma RowsRemoved(entries: map<nat, Cached>, id: nat)
    ensures Rows(entries - {id}) == Rows(entries) - {id}
  {
  }
}
