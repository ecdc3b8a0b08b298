/** The customer service over its table, with and without a cache (internal/service/customer.go,
    internal/adapter/postgres/customer_repository.go, internal/adapter/redis/customer_cache.go).
    This module is the meaning of each operation as a function. */
module Customers {
  import opened Wrappers
  import Email

  datatype Customer = Customer(id: nat, name: string, email: string, createdAt: nat, updatedAt: nat)

  datatype Error = InvalidName | InvalidEmail | DuplicateEmail | NotFound | Internal

  // BIGSERIAL hands out nextId, also to an insert that then violates UNIQUE.
  datatype Table = Table(rows: map<nat, Customer>, nextId: nat)

  datatype Answer = Answer(table: Table, reply: Result<Customer, Error>)

  predicate Taken(t: Table, email: string, owner: Option<nat>) {
    exists id :: id in t.rows && t.rows[id].email == email && owner != Some(id)
  }

  function InsertRow(t: Table, name: string, email: string, now: nat, fails: bool): Answer {
    if fails then Answer(t, Err(Internal))
    else if Taken(t, email, None) then Answer(t.(nextId := t.nextId + 1), Err(DuplicateEmail))
    else
      var c := Customer(t.nextId, name, email, now, now);
      Answer(Table(t.rows[t.nextId := c], t.nextId + 1), Ok(c))
  }

  function SelectRow(t: Table, id: nat, fails: bool): Result<Customer, Error> {
    if fails then Err(Internal) else if id in t.rows then Ok(t.rows[id]) else Err(NotFound)
  }

  function UpdateRow(t: Table, id: nat, name: string, email: string, now: nat, fails: bool): Answer {
    if fails then Answer(t, Err(Internal))
    else if id !in t.rows then Answer(t, Err(NotFound))
    else if Taken(t, email, Some(id)) then Answer(t, Err(DuplicateEmail))
    else
      var c := t.rows[id].(name := name, email := email, updatedAt := now);
      Answer(t.(rows := t.rows[id := c]), Ok(c))
  }

  function DeleteRow(t: Table, id: nat, fails: bool): Answer {
    if fails then Answer(t, Err(Internal))
    else if id !in t.rows then Answer(t, Err(NotFound))
    else Answer(t.(rows := t.rows - {id}), Ok(t.rows[id]))
  }

  // dbFails: the repository call fails. cacheMisses: the cached copy is gone, expired, unreadable or
  // redis is down. setFails, delFails: storing or deleting the copy fails, which the service never learns.
  datatype Op =
    | Create(name: string, raw: string, now: nat, dbFails: bool)
    | GetByID(id: nat, cacheMisses: bool, dbFails: bool, setFails: bool)
    | Update(id: nat, name: string, raw: string, now: nat, dbFails: bool, delFails: bool)
    | Delete(id: nat, dbFails: bool, delFails: bool)
    | Evict(id: nat)

  datatype Store = Store(table: Table, cache: map<nat, Customer>)

  datatype Outcome = Outcome(store: Store, reply: Result<Customer, Error>)

  // on is false for the service built with a nil cache. A successful Delete replies the row it removed.
  function Do(on: bool, s: Store, op: Op): Outcome {
    match op
    case Create(name, raw, now, dbFails) =>
      if Email.TrimSpace(name) == "" then Outcome(s, Err(InvalidName))
      else
        (match Email.NewEmail(raw)
         case Err(_) => Outcome(s, Err(InvalidEmail))
         case Ok(email) =>
           var a := InsertRow(s.table, name, email, now, dbFails);
           Outcome(s.(table := a.table), a.reply))
    case GetByID(id, cacheMisses, dbFails, setFails) =>
      if on && id in s.cache && !cacheMisses then Outcome(s, Ok(s.cache[id]))
      else
        (match SelectRow(s.table, id, dbFails)
         case Err(e) => Outcome(s, Err(e))
         case Ok(c) => Outcome(if on && !setFails then s.(cache := s.cache[c.id := c]) else s, Ok(c)))
    case Update(id, name, raw, now, dbFails, delFails) =>
      if Email.TrimSpace(name) == "" then Outcome(s, Err(InvalidName))
      else
        (match Email.NewEmail(raw)
         case Err(_) => Outcome(s, Err(InvalidEmail))
         case Ok(email) =>
           var a := UpdateRow(s.table, id, name, email, now, dbFails);
           Outcome(Store(a.table, if a.reply.Ok? && !delFails then s.cache - {a.reply.value.id} else s.cache), a.reply))
    case Delete(id, dbFails, delFails) =>
      var a := DeleteRow(s.table, id, dbFails);
      Outcome(Store(a.table, if a.reply.Ok? && !delFails then s.cache - {id} else s.cache), a.reply)
    case Evict(id) => Outcome(s.(cache := s.cache - {id}), Err(NotFound))
  }

  function Run(on: bool, s: Store, ops: seq<Op>): (Store, seq<Result<Customer, Error>>) {
    if ops == [] then (s, [])
    else
      var (before, replies) := Run(on, s, ops[..|ops| - 1]);
      var o := Do(on, before, ops[|ops| - 1]);
      (o.store, replies + [o.reply])
  }

  const EMPTY := Store(Table(map[], 1), map[])

  // ---- Cache transparency ----

  ghost predicate TableOk(t: Table) {
    forall id :: id in t.rows ==> t.rows[id].id == id && id < t.nextId
  }

  // Every cached copy is the row the table holds now.
  ghost predicate Coherent(s: Store) {
    TableOk(s.table) && forall id :: id in s.cache ==> id in s.table.rows && s.cache[id] == s.table.rows[id]
  }

  // A write whose invalidation fails while a copy that it made stale is cached.
  predicate LeavesStale(on: bool, s: Store, op: Op) {
    && (op.Update? || op.Delete?) && op.delFails && op.id in s.cache
    && var reply := Do(on, s, op).reply;
    && reply.Ok? && (op.Delete? || reply.value != s.cache[op.id])
  }

  /** Every operation keeps each cached copy equal to its row, except exactly a write that changes a cached row and
      whose invalidation fails. */
  lemma DoKeepsCoherent(on: bool, s: Store, op: Op)
    requires Coherent(s)
    ensures Coherent(Do(on, s, op).store) <==> !LeavesStale(on, s, op)
  {
    hide Email.NewEmail, Email.TrimSpace, Taken;
    var s' := Do(on, s, op).store;
    if LeavesStale(on, s, op) {
      assert op.id in s'.cache;
    }
  }

  predicate InvalidationsWork(ops: seq<Op>) {
    forall i :: 0 <= i < |ops| ==> (ops[i].Update? || ops[i].Delete? ==> !ops[i].delFails)
  }

  // The reply of a service whose repository works.
  function Undisturbed(op: Op): Op {
    if op.GetByID? then GetByID(op.id, op.cacheMisses, false, op.setFails) else op
  }

  lemma SameReply(s: Store, plain: Store, op: Op)
    requires Coherent(s) && plain.table == s.table
    ensures Do(true, s, op).store.table == Do(false, plain, op).store.table
    ensures Do(true, s, op).reply == Do(false, plain, op).reply ||
            (op.GetByID? && op.dbFails && Do(true, s, op).reply == Do(false, plain, Undisturbed(op)).reply)
  {
    hide Email.NewEmail, Email.TrimSpace, Taken;
  }

  ghost function Reply(on: bool, ops: seq<Op>, i: nat): Result<Customer, Error>
    requires i < |ops|
  {
    Do(on, Run(on, EMPTY, ops[..i]).0, ops[i]).reply
  }

  /** Cache transparency: over any history of operations whose invalidations work, with any evictions and with
      reads and fills of the cache failing at will, the cached service leaves the same table and gives the same
      replies as the service without a cache; the only difference is that it can answer, correctly, a read for
      which the database is down. */
  lemma {:induction false} CacheIsTransparent(ops: seq<Op>)
    requires InvalidationsWork(ops)
    ensures Coherent(Run(true, EMPTY, ops).0)
    ensures Run(true, EMPTY, ops).0.table == Run(false, EMPTY, ops).0.table
    ensures forall i :: 0 <= i < |ops| ==>
              || Reply(true, ops, i) == Reply(false, ops, i)
              || (ops[i].GetByID? && ops[i].dbFails &&
                  Reply(true, ops, i) == Do(false, Run(false, EMPTY, ops[..i]).0, Undisturbed(ops[i])).reply)
  {
    hide Do, Coherent;
    if ops == [] {
      EmptyCoherent();
    } else {
      var n := |ops| - 1;
      CacheIsTransparent(ops[..n]);
      var s, plain := Run(true, EMPTY, ops[..n]).0, Run(false, EMPTY, ops[..n]).0;
      DoKeepsCoherent(true, s, ops[n]);
      assert !LeavesStale(true, s, ops[n]);
      SameReply(s, plain, ops[n]);
      forall i | 0 <= i < |ops|
        ensures || Reply(true, ops, i) == Reply(false, ops, i)
                || (ops[i].GetByID? && ops[i].dbFails &&
                    Reply(true, ops, i) == Do(false, Run(false, EMPTY, ops[..i]).0, Undisturbed(ops[i])).reply)
      {
        if i < n {
          assert ops[..n][..i] == ops[..i] && ops[..n][i] == ops[i];
          assert Reply(true, ops[..n], i) == Reply(true, ops, i) && Reply(false, ops[..n], i) == Reply(false, ops, i);
        }
      }
    }
  }

  lemma EmptyCoherent()
    ensures Coherent(EMPTY)
  {
  }

  // ---- What the table's operations mean ----

  ghost predicate EmailsDistinct(t: Table) {
    && TableOk(t)
    && forall a, b :: a in t.rows && b in t.rows && a != b ==> t.rows[a].email != t.rows[b].email
  }

  // Every id but one reads as before.
  ghost predicate OthersSame(t: Table, t': Table, id: nat) {
    forall other :: other != id ==> SelectRow(t', other, false) == SelectRow(t, other, false)
  }

  /** Create: a row under an id that was never there, and every other row as it was; refused as a duplicate exactly when
      some row has that email. */
  lemma InsertIsFresh(t: Table, name: string, email: string, now: nat, fails: bool)
    requires EmailsDistinct(t)
    ensures var a := InsertRow(t, name, email, now, fails);
            && EmailsDistinct(a.table)
            && (a.reply == Err(DuplicateEmail) <==> !fails && exists id :: id in t.rows && t.rows[id].email == email)
            && match a.reply
               case Err(e) => a.table.rows == t.rows && (e == Internal <==> fails)
               case Ok(c) =>
                 && SelectRow(t, c.id, false) == Err(NotFound) && SelectRow(a.table, c.id, false) == Ok(c)
                 && c.name == name && c.email == email && c.createdAt == c.updatedAt == now
                 && OthersSame(t, a.table, c.id)
  {
    var a := InsertRow(t, name, email, now, fails);
    assert a.reply == Err(DuplicateEmail) <==> !fails && Taken(t, email, None);
    assert a.reply.Ok? ==> forall id :: id in t.rows ==> t.rows[id].email != email;
  }

  /** Update: the row reads as written with its creation time kept, every other row as it was; refused as a duplicate
      exactly when another row has that email. */
  lemma UpdateIsLocal(t: Table, id: nat, name: string, email: string, now: nat, fails: bool)
    requires EmailsDistinct(t)
    ensures var a := UpdateRow(t, id, name, email, now, fails);
            && EmailsDistinct(a.table) && OthersSame(t, a.table, id)
            && (a.reply == Err(DuplicateEmail) <==>
                  !fails && id in t.rows && exists b :: b in t.rows && b != id && t.rows[b].email == email)
            && (a.reply == Err(NotFound) <==> !fails && SelectRow(t, id, false) == Err(NotFound))
            && match a.reply
               case Err(e) => a.table == t && (e == Internal <==> fails)
               case Ok(c) =>
                 && c.id == id && c.name == name && c.email == email && c.updatedAt == now
                 && c.createdAt == t.rows[id].createdAt && SelectRow(a.table, id, false) == Ok(c)
  {
    var a := UpdateRow(t, id, name, email, now, fails);
    assert Taken(t, email, Some(id)) <==> exists b :: b in t.rows && t.rows[b].email == email && b != id;
    assert a.reply.Ok? ==> forall b :: b in t.rows && b != id ==> t.rows[b].email != email;
  }

  /** Delete: the row is gone for good, every other row as it was, and its email is free again. */
  lemma DeleteForgets(t: Table, id: nat, fails: bool, email: string)
    requires EmailsDistinct(t)
    ensures var a := DeleteRow(t, id, fails);
            && EmailsDistinct(a.table) && OthersSame(t, a.table, id) && a.table.nextId == t.nextId
            && (a.reply == Err(NotFound) <==> !fails && SelectRow(t, id, false) == Err(NotFound))
            && match a.reply
               case Err(e) => a.table == t && (e == Internal <==> fails)
               case Ok(c) =>
                 && SelectRow(t, id, false) == Ok(c) && SelectRow(a.table, id, false) == Err(NotFound)
                 && (Taken(a.table, email, None) <==> Taken(t, email, None) && email != c.email)
  {
    var a := DeleteRow(t, id, fails);
    if a.reply.Ok? && Taken(t, email, None) && email != a.reply.value.email {
      var b :| b in t.rows && t.rows[b].email == email;
      assert b in a.table.rows;
    }
  }

  // ---- What the service's operations mean on the table ----

  // Some row other than that of owner has the email.
  ghost predicate HeldByOther(t: Table, email: string, owner: Option<nat>) {
    exists id :: id in t.rows && t.rows[id].email == email && owner != Some(id)
  }

  /** What Create does: a blank name is refused, then an email that is not one, and with the database up one that some
      row has; otherwise a row under a new id appears, with that name and the accepted email. */
  ghost predicate Created(t: Table, t': Table, name: string, raw: string, now: nat, dbFails: bool,
                          reply: Result<Customer, Error>) {
    var email := Email.NewEmail(raw);
    && (reply == Err(InvalidName) <==> Email.AllBlank(name))
    && (reply == Err(InvalidEmail) <==> !Email.AllBlank(name) && email.Err?)
    && (reply == Err(Internal) <==> !Email.AllBlank(name) && email.Ok? && dbFails)
    && (reply == Err(DuplicateEmail) <==>
          !Email.AllBlank(name) && email.Ok? && !dbFails && HeldByOther(t, email.value, None))
    && match reply
       case Err(e) => e != NotFound && t'.rows == t.rows
       case Ok(c) =>
         && c.id == t.nextId && c.name == name && Ok(c.email) == email && c.createdAt == c.updatedAt == now
         && t'.rows == t.rows[c.id := c]
  }

  /** What Update does: the same refusals, and not found; otherwise that row has the name and the accepted email, its id
      and its creation time kept. */
  ghost predicate Updated(t: Table, t': Table, id: nat, name: string, raw: string, now: nat, dbFails: bool,
                          reply: Result<Customer, Error>) {
    var email := Email.NewEmail(raw);
    && (reply == Err(InvalidName) <==> Email.AllBlank(name))
    && (reply == Err(InvalidEmail) <==> !Email.AllBlank(name) && email.Err?)
    && (reply == Err(Internal) <==> !Email.AllBlank(name) && email.Ok? && dbFails)
    && (reply == Err(NotFound) <==> !Email.AllBlank(name) && email.Ok? && !dbFails && id !in t.rows)
    && (reply == Err(DuplicateEmail) <==>
          !Email.AllBlank(name) && email.Ok? && !dbFails && id in t.rows && HeldByOther(t, email.value, Some(id)))
    && match reply
       case Err(_) => t' == t
       case Ok(c) =>
         && id in t.rows && c.id == t.rows[id].id && c.createdAt == t.rows[id].createdAt
         && c.name == name && Ok(c.email) == email && c.updatedAt == now
         && t'.rows == t.rows[id := c] && t'.nextId == t.nextId
  }

  // What Delete does: an existing row goes, and no other.
  ghost predicate Deleted(t: Table, t': Table, id: nat, dbFails: bool, reply: Result<Customer, Error>) {
    && (reply == Err(Internal) <==> dbFails)
    && (reply == Err(NotFound) <==> !dbFails && id !in t.rows)
    && match reply
       case Err(e) => (e == Internal || e == NotFound) && t' == t
       case Ok(c) =>
         && id in t.rows && c == t.rows[id] && t'.nextId == t.nextId && id !in t'.rows
         && (forall other :: other != id ==> Lookup(t'.rows, other) == Lookup(t.rows, other))
  }

  /** What GetByID does to cache and reply: a hit answers the copy and changes nothing; otherwise the database answers,
      and a row it has is cached unless that fails. */
  ghost predicate Fetched(on: bool, s: Store, s': Store, id: nat, misses: bool, dbFails: bool, setFails: bool,
                          reply: Result<Customer, Error>) {
    && s'.table == s.table
    && (on && !misses && id in s.cache ==> reply == Ok(s.cache[id]) && s'.cache == s.cache)
    && (!on || misses || id !in s.cache ==>
          && (reply == Err(Internal) <==> dbFails)
          && (reply == Err(NotFound) <==> !dbFails && id !in s.table.rows)
          && (reply.Ok? ==> id in s.table.rows && reply.value == s.table.rows[id])
          && (reply.Err? || !on || setFails ==> s'.cache == s.cache)
          && (reply.Ok? && on && !setFails ==> s'.cache == s.cache[id := s.table.rows[id]]))
  }

  lemma CreateMeans(on: bool, s: Store, op: Op)
    requires op.Create?
    ensures var o := Do(on, s, op);
            Created(s.table, o.store.table, op.name, op.raw, op.now, op.dbFails, o.reply) && o.store.cache == s.cache
  {
    hide Email.NewEmail, Email.TrimSpace, Email.AllBlank;
    Email.BlankIsEmpty(op.name);
    var email := Email.NewEmail(op.raw);
    if email.Ok? {
      assert Taken(s.table, email.value, None) <==> HeldByOther(s.table, email.value, None);
    }
  }

  lemma UpdateMeans(on: bool, s: Store, op: Op)
    requires op.Update?
    ensures var o := Do(on, s, op);
            Updated(s.table, o.store.table, op.id, op.name, op.raw, op.now, op.dbFails, o.reply)
  {
    hide Email.NewEmail, Email.TrimSpace, Email.AllBlank;
    Email.BlankIsEmpty(op.name);
    var email := Email.NewEmail(op.raw);
    if email.Ok? {
      assert Taken(s.table, email.value, Some(op.id)) <==> HeldByOther(s.table, email.value, Some(op.id));
    }
  }

  lemma DeleteMeans(on: bool, s: Store, op: Op)
    requires op.Delete?
    ensures Deleted(s.table, Do(on, s, op).store.table, op.id, op.dbFails, Do(on, s, op).reply)
  {
  }

  lemma GetMeans(on: bool, s: Store, op: Op)
    requires TableOk(s.table) && op.GetByID?
    ensures var o := Do(on, s, op);
            Fetched(on, s, o.store, op.id, op.cacheMisses, op.dbFails, op.setFails, o.reply)
  {
  }

  /** The cache carries reads over an outage: after a read that filled it, the next one replies the same customer though
      the database is down. */
  lemma FillServesOutage(s: Store, first: Op, second: Op)
    requires TableOk(s.table) && first.GetByID? && second.GetByID? && second.id == first.id
    requires first.id in s.table.rows && (first.cacheMisses || first.id !in s.cache)
    requires !first.dbFails && !first.setFails && !second.cacheMisses && second.dbFails
    ensures var o := Do(true, s, first);
            o.reply == Do(true, o.store, second).reply == Ok(s.table.rows[first.id])
  {
    GetMeans(true, s, first);
    GetMeans(true, Do(true, s, first).store, second);
  }

  // ---- Histories ----

  function Replies(on: bool, ops: seq<Op>): (rs: seq<Result<Customer, Error>>)
    ensures |rs| == |ops|
  {
    if ops == [] then []
    else
      var n := |ops| - 1;
      Replies(on, ops[..n]) + [Do(on, Run(on, EMPTY, ops[..n]).0, ops[n]).reply]
  }

  // The customer that the last successful write of id replied, read off the history alone.
  function LastWritten(ops: seq<Op>, replies: seq<Result<Customer, Error>>, id: nat): Option<Customer>
    requires |replies| == |ops|
  {
    if ops == [] then None
    else
      var n := |ops| - 1;
      var before := LastWritten(ops[..n], replies[..n], id);
      match replies[n]
      case Err(_) => before
      case Ok(c) =>
        if (ops[n].Create? || ops[n].Update?) && c.id == id then Some(c)
        else if ops[n].Delete? && ops[n].id == id then None
        else before
  }

  function ReplyFor(c: Option<Customer>): Result<Customer, Error> {
    match c
    case None => Err(NotFound)
    case Some(c) => Ok(c)
  }

  lemma WriteShows(on: bool, s: Store, op: Op, id: nat)
    requires Coherent(s)
    ensures var o := Do(on, s, op);
            SelectRow(o.store.table, id, false) ==
            if o.reply.Ok? && (op.Create? || op.Update?) && o.reply.value.id == id then o.reply
            else if o.reply.Ok? && op.Delete? && op.id == id then Err(NotFound)
            else SelectRow(s.table, id, false)
  {
    hide Email.NewEmail, Email.TrimSpace, Taken;
  }

  lemma {:induction false} TableIsLastWrites(on: bool, ops: seq<Op>, id: nat)
    requires InvalidationsWork(ops)
    ensures Coherent(Run(on, EMPTY, ops).0)
    ensures SelectRow(Run(on, EMPTY, ops).0.table, id, false) == ReplyFor(LastWritten(ops, Replies(on, ops), id))
  {
    hide Do, Coherent;
    if ops == [] {
      EmptyCoherent();
    } else {
      var n := |ops| - 1;
      TableIsLastWrites(on, ops[..n], id);
      var s := Run(on, EMPTY, ops[..n]).0;
      DoKeepsCoherent(on, s, ops[n]);
      assert !LeavesStale(on, s, ops[n]);
      WriteShows(on, s, ops[n], id);
      assert Replies(on, ops)[..n] == Replies(on, ops[..n]);
    }
  }

  lemma ReadShows(on: bool, s: Store, op: Op)
    requires Coherent(s) && op.GetByID?
    ensures var r := Do(on, s, op).reply;
            r == SelectRow(s.table, op.id, false) || (op.dbFails && r == Err(Internal))
  {
  }

  /** Reads see the last write. In every history whose invalidations work, with or without a cache, through hits and
      misses, evictions and failures: a read replies what the last successful write of its id replied, or
      not found if there was none or the customer was deleted since; only a read for which the
      database is down may fail instead. */
  lemma ReadsSeeLastWrite(on: bool, ops: seq<Op>, i: nat)
    requires i < |ops| && ops[i].GetByID? && InvalidationsWork(ops)
    ensures var r := Do(on, Run(on, EMPTY, ops[..i]).0, ops[i]).reply;
            || r == ReplyFor(LastWritten(ops[..i], Replies(on, ops[..i]), ops[i].id))
            || (ops[i].dbFails && r == Err(Internal))
  {
    hide Do, Run, LastWritten, Replies, Coherent;
    TableIsLastWrites(on, ops[..i], ops[i].id);
    ReadShows(on, Run(on, EMPTY, ops[..i]).0, ops[i]);
  }

  lemma NextIdStep(on: bool, s: Store, op: Op)
    ensures var o := Do(on, s, op);
            s.table.nextId <= o.store.table.nextId &&
            (op.Create? && o.reply.Ok? ==> o.reply.value.id == s.table.nextId < o.store.table.nextId)
  {
    hide Email.NewEmail, Email.TrimSpace, Taken;
  }

  lemma {:induction false} NextIdGrows(on: bool, ops: seq<Op>, n: nat)
    requires n <= |ops|
    ensures Run(on, EMPTY, ops[..n]).0.table.nextId <= Run(on, EMPTY, ops).0.table.nextId
    decreases |ops|
  {
    hide Do;
    if n == |ops| {
      assert ops[..n] == ops;
    } else {
      var m := |ops| - 1;
      NextIdGrows(on, ops[..m], n);
      assert ops[..m][..n] == ops[..n];
      NextIdStep(on, Run(on, EMPTY, ops[..m]).0, ops[m]);
    }
  }

  /** Ids are never used twice, not even after a delete: a later customer has a greater id. */
  lemma IdsAreNeverReused(on: bool, ops: seq<Op>, i: nat, j: nat)
    requires i < j < |ops| && ops[i].Create? && ops[j].Create?
    requires Reply(on, ops, i).Ok? && Reply(on, ops, j).Ok?
    ensures Reply(on, ops, i).value.id < Reply(on, ops, j).value.id
  {
    hide Do;
    NextIdStep(on, Run(on, EMPTY, ops[..i]).0, ops[i]);
    NextIdStep(on, Run(on, EMPTY, ops[..j]).0, ops[j]);
    assert ops[..i + 1][..i] == ops[..i] && ops[..j][..i + 1] == ops[..i + 1];
    NextIdGrows(on, ops[..j], i + 1);
  }

  // ---- Email uniqueness ----

  // The raw email each row was last written from, given in the same operations.
  ghost function Raws(on: bool, ops: seq<Op>): map<nat, string> {
    if ops == [] then map[]
    else
      var n := |ops| - 1;
      var o := Do(on, Run(on, EMPTY, ops[..n]).0, ops[n]);
      var raws := Raws(on, ops[..n]);
      match ops[n]
      case Create(_, raw, _, _) => if o.reply.Ok? then raws[o.reply.value.id := raw] else raws
      case Update(_, _, raw, _, _, _) => if o.reply.Ok? then raws[o.reply.value.id := raw] else raws
      case _ => raws
  }

  ghost predicate EmailsOk(t: Table, raws: map<nat, string>) {
    && TableOk(t)
    && (forall id :: id in t.rows ==> id in raws && Email.NewEmail(raws[id]) == Ok(t.rows[id].email))
    && (forall a, b :: a in t.rows && b in t.rows && a != b ==> t.rows[a].email != t.rows[b].email)
  }

  // A write of one row under an email no other row has.
  lemma RowWritten(t: Table, raws: map<nat, string>, c: Customer, raw: string, nextId: nat)
    requires EmailsOk(t, raws) && Email.NewEmail(raw) == Ok(c.email) && t.nextId <= nextId && c.id < nextId
    requires forall id :: id in t.rows && id != c.id ==> t.rows[id].email != c.email
    ensures EmailsOk(Table(t.rows[c.id := c], nextId), raws[c.id := raw])
  {
    hide Email.NewEmail;
  }

  lemma EmailsStep(on: bool, s: Store, op: Op, raws: map<nat, string>)
    requires EmailsOk(s.table, raws)
    ensures var o := Do(on, s, op);
            EmailsOk(o.store.table,
                     if o.reply.Ok? && (op.Create? || op.Update?) then raws[o.reply.value.id := op.raw] else raws)
  {
    hide Email.NewEmail, Email.TrimSpace;
    var o := Do(on, s, op);
    if o.reply.Ok? && (op.Create? || op.Update?) {
      hide EmailsOk;
      assert o.reply.value.id < o.store.table.nextId by { RowIds(s.table, raws); }
      RowWritten(s.table, raws, o.reply.value, op.raw, o.store.table.nextId);
    }
  }

  lemma RowIds(t: Table, raws: map<nat, string>)
    requires EmailsOk(t, raws)
    ensures forall id :: id in t.rows ==> t.rows[id].id == id && id < t.nextId
  {
  }

  lemma {:induction false} EmailsStayUnique(on: bool, ops: seq<Op>)
    ensures EmailsOk(Run(on, EMPTY, ops).0.table, Raws(on, ops))
  {
    hide Do;
    if ops != [] {
      var n := |ops| - 1;
      EmailsStayUnique(on, ops[..n]);
      EmailsStep(on, Run(on, EMPTY, ops[..n]).0, ops[n], Raws(on, ops[..n]));
    }
  }

  /** Uniqueness up to case and blanks: in every reachable table, the raw emails two rows were written from differ in
      more than letter case and surrounding blanks; each row's email is its raw one but for those, in
      lower case, and a fixed point of NewEmail. */
  lemma NoTwoRowsSameEmail(on: bool, ops: seq<Op>, a: nat, b: nat)
    requires var t := Run(on, EMPTY, ops).0.table; a in t.rows && b in t.rows && a != b
    ensures a in Raws(on, ops) && b in Raws(on, ops)
    ensures !Email.SameAddress(Raws(on, ops)[a], Raws(on, ops)[b])
    ensures var t := Run(on, EMPTY, ops).0.table;
            && Email.SameAddress(Raws(on, ops)[a], t.rows[a].email)
            && Email.NewEmail(t.rows[a].email) == Ok(t.rows[a].email)
            && forall i :: 0 <= i < |t.rows[a].email| ==> !('A' <= t.rows[a].email[i] <= 'Z')
  {
    hide Email.NewEmail, Email.SameAddress, Run, Raws;
    EmailsStayUnique(on, ops);
    Email.SameEmailExactly(Raws(on, ops)[a], Raws(on, ops)[b]);
    Email.AcceptedIsTheText(Raws(on, ops)[a]);
    Email.NewEmailIsIdempotent(Raws(on, ops)[a]);
  }
}
