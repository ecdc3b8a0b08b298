/** The cache under concurrency: every interleaving of reads, updates and deletes, each split at its repository
    and cache calls (internal/service/customer.go, internal/adapter/redis/customer_cache.go). */
module Staleness {
  import opened Wrappers
  import opened Customers

  // A reader between its repository read and its cache Set.
  datatype Reader = Reader(id: nat, row: Customer, readAt: nat)

  datatype Copy = Copy(row: Customer, setAt: nat)

  datatype World = World(
    now: nat,
    rows: map<nat, Customer>,
    nextId: nat,
    cache: map<nat, Copy>,
    // by goroutine: readers about to Set, writers about to Invalidate
    readers: map<nat, Reader>,
    writers: map<nat, nat>)

  datatype Action =
    | Advance(d: nat)
    | Evict(id: nat)
    | Insert(row: Customer)
    | Hit(id: nat)
    | Read(g: nat, id: nat)
    | Set(g: nat)
    | SetFails(g: nat)
    | Write(g: nat, row: Customer)
    | Remove(g: nat, id: nat)
    | Invalidate(g: nat)
    | InvalidateFails(g: nat)

  // A copy that can still be hit: Redis drops it once it is older than ttl.
  predicate Fresh(ttl: nat, s: World, id: nat) {
    id in s.cache && s.now <= s.cache[id].setAt + ttl
  }

  predicate Enabled(ttl: nat, a: Action, s: World) {
    match a
    case Advance(_) => true
    case Evict(_) => true
    case Insert(row) => row.id == s.nextId
    case Hit(id) => Fresh(ttl, s, id)
    case Read(g, id) => id in s.rows && g !in s.readers
    case Set(g) => g in s.readers
    case SetFails(g) => g in s.readers
    case Write(g, row) => row.id in s.rows && g !in s.writers
    case Remove(g, id) => id in s.rows && g !in s.writers
    case Invalidate(g) => g in s.writers
    case InvalidateFails(g) => g in s.writers
  }

  function Apply(ttl: nat, a: Action, s: World): World
    requires Enabled(ttl, a, s)
  {
    match a
    case Advance(d) => s.(now := s.now + d)
    case Evict(id) => s.(cache := s.cache - {id})
    case Insert(row) => s.(rows := s.rows[row.id := row], nextId := s.nextId + 1)
    case Hit(_) => s
    case Read(g, id) => s.(readers := s.readers[g := Reader(id, s.rows[id], s.now)])
    case Set(g) =>
      var r := s.readers[g];
      s.(cache := s.cache[r.id := Copy(r.row, s.now)], readers := s.readers - {g})
    case SetFails(g) => s.(readers := s.readers - {g})
    case Write(g, row) => s.(rows := s.rows[row.id := row], writers := s.writers[g := row.id])
    case Remove(g, id) => s.(rows := s.rows - {id}, writers := s.writers[g := id])
    case Invalidate(g) => s.(cache := s.cache - {s.writers[g]}, writers := s.writers - {g})
    case InvalidateFails(g) => s.(writers := s.writers - {g})
  }

  ghost predicate Run(ttl: nat, states: seq<World>, acts: seq<Action>) {
    && |states| == |acts| + 1
    && states[0].cache == map[] && states[0].readers == map[] && states[0].writers == map[]
    && (forall id :: id in states[0].rows ==> id < states[0].nextId)
    && forall i :: 0 <= i < |acts| ==>
         Enabled(ttl, acts[i], states[i]) && states[i + 1] == Apply(ttl, acts[i], states[i])
  }

  // ---- Bounded staleness ----

  // The table held row under id at some state i of the run, at time r.
  ghost predicate HeldAt(states: seq<World>, n: nat, id: nat, row: Customer, r: nat) {
    exists i :: 0 <= i <= n < |states| && states[i].now == r && id in states[i].rows && states[i].rows[id] == row
  }

  // No reader takes longer than gap between its repository read and its cache Set.
  ghost predicate GapAtMost(states: seq<World>, acts: seq<Action>, gap: nat) {
    |states| > |acts| && forall i :: 0 <= i < |acts| && acts[i].Set? && acts[i].g in states[i].readers ==>
      states[i].now <= states[i].readers[acts[i].g].readAt + gap
  }

  // The copy was stored at most gap after a time the table held its row.
  ghost predicate Recent(states: seq<World>, n: nat, id: nat, copy: Copy, gap: nat) {
    exists r: nat :: HeldAt(states, n, id, copy.row, r) && copy.setAt <= r + gap
  }

  ghost predicate Traced(states: seq<World>, n: nat, gap: nat)
    requires n < |states|
  {
    && (forall g :: g in states[n].readers ==>
          var r := states[n].readers[g]; HeldAt(states, n, r.id, r.row, r.readAt))
    && (forall id :: id in states[n].cache ==>
          Recent(states, n, id, states[n].cache[id], gap))
  }

  lemma HeldLater(states: seq<World>, n: nat, id: nat, row: Customer, r: nat)
    requires n + 1 < |states| && HeldAt(states, n, id, row, r)
    ensures HeldAt(states, n + 1, id, row, r)
  {
    var i :| 0 <= i <= n && states[i].now == r && id in states[i].rows && states[i].rows[id] == row;
  }

  lemma TracedStep(ttl: nat, states: seq<World>, acts: seq<Action>, n: nat, gap: nat)
    requires Run(ttl, states, acts) && GapAtMost(states, acts, gap) && n < |acts| && Traced(states, n, gap)
    ensures Traced(states, n + 1, gap)
  {
    hide HeldAt;
    var s, s', a := states[n], states[n + 1], acts[n];
    assert Enabled(ttl, a, s) && s' == Apply(ttl, a, s);
    forall g | g in s'.readers
      ensures var r := s'.readers[g]; HeldAt(states, n + 1, r.id, r.row, r.readAt)
    {
      var r := s'.readers[g];
      if g in s.readers && s.readers[g] == r {
        HeldLater(states, n, r.id, r.row, r.readAt);
      } else {
        HeldNow(states, n + 1, r.id);
      }
    }
    forall id | id in s'.cache
      ensures Recent(states, n + 1, id, s'.cache[id], gap)
    {
      if id in s.cache && s.cache[id] == s'.cache[id] {
        var r: nat :| HeldAt(states, n, id, s.cache[id].row, r) && s.cache[id].setAt <= r + gap;
        HeldLater(states, n, id, s.cache[id].row, r);
      } else {
        var r := s.readers[a.g];
        HeldLater(states, n, id, r.row, r.readAt);
      }
    }
  }

  lemma HeldNow(states: seq<World>, n: nat, id: nat)
    requires n < |states| && id in states[n].rows
    ensures HeldAt(states, n, id, states[n].rows[id], states[n].now)
  {
  }

  lemma {:induction false} RunTraced(ttl: nat, states: seq<World>, acts: seq<Action>, n: nat, gap: nat)
    requires Run(ttl, states, acts) && GapAtMost(states, acts, gap) && n <= |acts|
    ensures Traced(states, n, gap)
  {
    hide Enabled, Apply, HeldAt, GapAtMost;
    if n > 0 {
      RunTraced(ttl, states, acts, n - 1, gap);
      TracedStep(ttl, states, acts, n - 1, gap);
    }
  }

  /** Bounded staleness: in every interleaving, with invalidations failing or lost at will, a hit at time t returns
      a row the table held under that id at some time r with t - r <= ttl + gap, where gap bounds
      how long a reader takes from its repository read to its cache Set. */
  lemma HitsAreRecent(ttl: nat, states: seq<World>, acts: seq<Action>, n: nat, gap: nat) returns (r: nat)
    requires Run(ttl, states, acts) && GapAtMost(states, acts, gap)
    requires n < |acts| && acts[n].Hit?
    ensures acts[n].id in states[n].cache
    ensures HeldAt(states, n, acts[n].id, states[n].cache[acts[n].id].row, r)
    ensures states[n].now <= r + gap + ttl
  {
    hide HeldAt, GapAtMost;
    RunTraced(ttl, states, acts, n, gap);
    assert Enabled(ttl, acts[n], states[n]);
    var id := acts[n].id;
    assert Recent(states, n, id, states[n].cache[id], gap);
    r :| HeldAt(states, n, id, states[n].cache[id].row, r) && states[n].cache[id].setAt <= r + gap;
  }

  // ---- When the cache agrees with the table ----

  ghost predicate Pending(s: World, id: nat) {
    exists g :: g in s.writers && s.writers[g] == id
  }

  // A copy that can be hit differs from its row only while the writer that changed it has yet to invalidate it.
  ghost predicate Coherent(ttl: nat, s: World) {
    forall id :: Fresh(ttl, s, id) ==> Pending(s, id) || (id in s.rows && s.cache[id].row == s.rows[id])
  }

  // The row a Set stores is the table's, or its invalidation is still to come.
  ghost predicate StillCurrent(s: World, g: nat) {
    g in s.readers ==>
      var r := s.readers[g];
      Pending(s, r.id) || (r.id in s.rows && s.rows[r.id] == r.row)
  }

  // An invalidation that fails leaves no copy behind, or one that is the table's row, or another writer to come.
  ghost predicate StillHarmless(ttl: nat, s: World, g: nat) {
    g in s.writers ==>
      var id := s.writers[g];
      || !Fresh(ttl, s, id) || (id in s.rows && s.cache[id].row == s.rows[id])
      || Pending(s.(writers := s.writers - {g}), id)
  }

  // The two steps that can leave a stale copy.
  ghost predicate KeepsFresh(ttl: nat, a: Action, s: World) {
    (a.Set? ==> StillCurrent(s, a.g)) && (a.InvalidateFails? ==> StillHarmless(ttl, s, a.g))
  }

  // A new row's id has never been read or cached.
  ghost predicate IdsUsed(s: World) {
    && (forall id :: id in s.rows || id in s.cache ==> id < s.nextId)
    && (forall g :: g in s.readers ==> s.readers[g].id < s.nextId)
  }

  lemma {:induction false} RunIdsUsed(ttl: nat, states: seq<World>, acts: seq<Action>, n: nat)
    requires Run(ttl, states, acts) && n <= |acts|
    ensures IdsUsed(states[n])
  {
    if n > 0 {
      RunIdsUsed(ttl, states, acts, n - 1);
      assert Enabled(ttl, acts[n - 1], states[n - 1]) && states[n] == Apply(ttl, acts[n - 1], states[n - 1]);
    }
  }

  lemma FreshStepKeepsCoherent(ttl: nat, a: Action, s: World)
    requires Enabled(ttl, a, s) && IdsUsed(s) && Coherent(ttl, s) && KeepsFresh(ttl, a, s)
    ensures Coherent(ttl, Apply(ttl, a, s))
  {
    var s' := Apply(ttl, a, s);
    forall id | Fresh(ttl, s', id)
      ensures Pending(s', id) || (id in s'.rows && s'.cache[id].row == s'.rows[id])
    {
      if a.InvalidateFails? && s.writers[a.g] == id {
        assert s' == s.(writers := s.writers - {a.g});
      } else if Pending(s, id) {
        var g :| g in s.writers && s.writers[g] == id;
        assert g in s'.writers && s'.writers[g] == id;
      } else if a.Write? || a.Remove? {
        assert a.g in s'.writers;
      }
    }
  }

  lemma StaleStepBreaks(ttl: nat, a: Action, s: World)
    requires Enabled(ttl, a, s) && !KeepsFresh(ttl, a, s)
    ensures !Coherent(ttl, Apply(ttl, a, s))
  {
    var s' := Apply(ttl, a, s);
    if a.Set? {
      var r := s.readers[a.g];
      assert Fresh(ttl, s', r.id);
      assert Pending(s', r.id) ==> Pending(s, r.id);
    } else {
      assert s' == s.(writers := s.writers - {a.g});
      assert Fresh(ttl, s', s.writers[a.g]);
    }
  }

  lemma {:induction false} FreshRunStaysCoherent(ttl: nat, states: seq<World>, acts: seq<Action>, n: nat)
    requires Run(ttl, states, acts) && n <= |acts|
    requires forall i :: 0 <= i < n ==> KeepsFresh(ttl, acts[i], states[i])
    ensures forall i :: 0 <= i <= n ==> Coherent(ttl, states[i])
  {
    hide Enabled, Apply, KeepsFresh, IdsUsed;
    if n > 0 {
      FreshRunStaysCoherent(ttl, states, acts, n - 1);
      RunIdsUsed(ttl, states, acts, n - 1);
      assert Enabled(ttl, acts[n - 1], states[n - 1]) && states[n] == Apply(ttl, acts[n - 1], states[n - 1]);
      FreshStepKeepsCoherent(ttl, acts[n - 1], states[n - 1]);
    }
  }

  // ---- The same, read off the schedule ----

  // What a sequence of steps leaves under id in a table that started as rows.
  function RowAfter(rows: map<nat, Customer>, acts: seq<Action>, id: nat): Option<Customer> {
    if acts == [] then if id in rows then Some(rows[id]) else None
    else
      var before := RowAfter(rows, acts[..|acts| - 1], id);
      match acts[|acts| - 1]
      case Insert(row) => if row.id == id then Some(row) else before
      case Write(_, row) => if row.id == id then Some(row) else before
      case Remove(_, gone) => if gone == id then None else before
      case _ => before
  }

  // When reader g last went to the repository.
  function LastRead(acts: seq<Action>, g: nat): (j: Option<nat>)
    ensures j.Some? ==> j.value < |acts| && acts[j.value].Read? && acts[j.value].g == g
  {
    if acts == [] then None
    else
      var n := |acts| - 1;
      if acts[n].Read? && acts[n].g == g then Some(n) else LastRead(acts[..n], g)
  }

  // The id that g wrote and has not dealt with in the cache since.
  function Unfinished(acts: seq<Action>, g: nat): Option<nat> {
    if acts == [] then None
    else
      var before := Unfinished(acts[..|acts| - 1], g);
      match acts[|acts| - 1]
      case Write(h, row) => if h == g then Some(row.id) else before
      case Remove(h, id) => if h == g then Some(id) else before
      case Invalidate(h) => if h == g then None else before
      case InvalidateFails(h) => if h == g then None else before
      case _ => before
  }

  // A cached row, and for how long it has been cached.
  datatype Aged = Aged(row: Customer, age: nat)

  // The copy under id that can be hit.
  function CopyAfter(ttl: nat, rows: map<nat, Customer>, acts: seq<Action>, id: nat): Option<Aged> {
    if acts == [] then None
    else
      var past := acts[..|acts| - 1];
      var before := CopyAfter(ttl, rows, past, id);
      match acts[|acts| - 1]
      case Advance(d) =>
        if before.None? || before.value.age + d > ttl then None
        else Some(Aged(before.value.row, before.value.age + d))
      case Set(g) =>
        var j := LastRead(past, g);
        if j.Some? && past[j.value].id == id then
          var row := RowAfter(rows, past[..j.value], id);
          if row.Some? then Some(Aged(row.value, 0)) else None
        else before
      case Evict(gone) => if gone == id then None else before
      case Invalidate(h) => if Unfinished(past, h) == Some(id) then None else before
      case _ => before
  }

  // Some writer of id is still to invalidate it.
  ghost predicate BeingWritten(acts: seq<Action>, id: nat) {
    exists g :: Unfinished(acts, g) == Some(id)
  }

  // Between the repository read of the reader that sets at i and that Set, the writes of the row cancel out; or
  // some writer of that row has yet to invalidate it.
  ghost predicate SetIsCurrent(rows: map<nat, Customer>, acts: seq<Action>, i: nat)
    requires i < |acts| && acts[i].Set?
  {
    var j := LastRead(acts[..i], acts[i].g);
    j.Some? ==>
      var id := acts[j.value].id;
      || RowAfter(rows, acts[..i], id) == RowAfter(rows, acts[..j.value], id)
      || BeingWritten(acts[..i], id)
  }

  // The invalidation that fails at i had no copy to remove, or only one of the row as the writes left it; or
  // another writer of the row has yet to invalidate it.
  ghost predicate FailIsHarmless(ttl: nat, rows: map<nat, Customer>, acts: seq<Action>, i: nat)
    requires i < |acts| && acts[i].InvalidateFails?
  {
    var id := Unfinished(acts[..i], acts[i].g);
    id.Some? ==>
      var copy := CopyAfter(ttl, rows, acts[..i], id.value);
      || copy == None || Some(copy.value.row) == RowAfter(rows, acts[..i], id.value)
      || BeingWritten(acts[..i + 1], id.value)
  }

  // What the schedule has to do for the cache to agree with the table.
  ghost predicate ScheduledFresh(ttl: nat, rows: map<nat, Customer>, acts: seq<Action>, i: nat)
    requires i < |acts|
  {
    && (acts[i].Set? ==> SetIsCurrent(rows, acts, i))
    && (acts[i].InvalidateFails? ==> FailIsHarmless(ttl, rows, acts, i))
  }

  lemma {:induction false} RowsFollow(ttl: nat, states: seq<World>, acts: seq<Action>, n: nat, id: nat)
    requires Run(ttl, states, acts) && n <= |acts|
    ensures Lookup(states[n].rows, id) == RowAfter(states[0].rows, acts[..n], id)
  {
    if n > 0 {
      RowsFollow(ttl, states, acts, n - 1, id);
      assert acts[..n][..n - 1] == acts[..n - 1];
      assert Enabled(ttl, acts[n - 1], states[n - 1]) && states[n] == Apply(ttl, acts[n - 1], states[n - 1]);
    }
  }

  lemma {:induction false} WritersFollow(ttl: nat, states: seq<World>, acts: seq<Action>, n: nat, g: nat)
    requires Run(ttl, states, acts) && n <= |acts|
    ensures Lookup(states[n].writers, g) == Unfinished(acts[..n], g)
  {
    if n > 0 {
      WritersFollow(ttl, states, acts, n - 1, g);
      assert acts[..n][..n - 1] == acts[..n - 1];
      assert Enabled(ttl, acts[n - 1], states[n - 1]) && states[n] == Apply(ttl, acts[n - 1], states[n - 1]);
    }
  }

  lemma {:induction false} ReadersFollow(ttl: nat, states: seq<World>, acts: seq<Action>, n: nat, g: nat)
    requires Run(ttl, states, acts) && n <= |acts| && g in states[n].readers
    ensures var j := LastRead(acts[..n], g);
            && j.Some? && j.value < n && acts[j.value] == Read(g, states[n].readers[g].id)
            && Lookup(states[j.value].rows, acts[j.value].id) == Some(states[n].readers[g].row)
  {
    assert n > 0;
    var a, s := acts[n - 1], states[n - 1];
    assert acts[..n][..n - 1] == acts[..n - 1];
    assert Enabled(ttl, a, s) && states[n] == Apply(ttl, a, s);
    if a.Read? && a.g == g {
      assert LastRead(acts[..n], g) == Some(n - 1);
    } else {
      ReadersFollow(ttl, states, acts, n - 1, g);
    }
  }

  lemma PendingFollows(ttl: nat, states: seq<World>, acts: seq<Action>, n: nat, id: nat)
    requires Run(ttl, states, acts) && n <= |acts|
    ensures Pending(states[n], id) <==> BeingWritten(acts[..n], id)
  {
    hide Unfinished, Enabled, Apply;
    if Pending(states[n], id) {
      var g :| g in states[n].writers && states[n].writers[g] == id;
      WritersFollow(ttl, states, acts, n, g);
    }
    if BeingWritten(acts[..n], id) {
      var g :| Unfinished(acts[..n], g) == Some(id);
      WritersFollow(ttl, states, acts, n, g);
    }
  }

  // What a Set stores is current exactly when the schedule says so.
  lemma CurrentBySchedule(ttl: nat, states: seq<World>, acts: seq<Action>, i: nat)
    requires Run(ttl, states, acts) && i < |acts| && acts[i].Set?
    ensures StillCurrent(states[i], acts[i].g) <==> SetIsCurrent(states[0].rows, acts, i)
  {
    hide Apply, RowAfter, BeingWritten, LastRead, Pending;
    var g := acts[i].g;
    assert Enabled(ttl, acts[i], states[i]);
    ReadersFollow(ttl, states, acts, i, g);
    var j := LastRead(acts[..i], g).value;
    var id := acts[j].id;
    RowsFollow(ttl, states, acts, i, id);
    RowsFollow(ttl, states, acts, j, id);
    PendingFollows(ttl, states, acts, i, id);
    assert StillCurrent(states[i], g) <==>
           Pending(states[i], id) || RowAfter(states[0].rows, acts[..i], id) == Some(states[i].readers[g].row);
  }

  // What a hit at id would find.
  function FreshCopy(ttl: nat, s: World, id: nat): Option<Aged> {
    if Fresh(ttl, s, id) && s.cache[id].setAt <= s.now then Some(Aged(s.cache[id].row, s.now - s.cache[id].setAt))
    else None
  }

  // What a step does to the copy under id.
  lemma CopyStep(ttl: nat, a: Action, s: World, id: nat)
    requires Enabled(ttl, a, s) && (id in s.cache ==> s.cache[id].setAt <= s.now)
    ensures var s', before := Apply(ttl, a, s), FreshCopy(ttl, s, id);
            && (id in s'.cache ==> s'.cache[id].setAt <= s'.now)
            && FreshCopy(ttl, s', id) ==
               match a
               case Advance(d) =>
                 if before.None? || before.value.age + d > ttl then None
                 else Some(Aged(before.value.row, before.value.age + d))
               case Set(g) => if s.readers[g].id == id then Some(Aged(s.readers[g].row, 0)) else before
               case Evict(gone) => if gone == id then None else before
               case Invalidate(h) => if s.writers[h] == id then None else before
               case _ => before
  {
  }

  lemma {:induction false} CopiesFollow(ttl: nat, states: seq<World>, acts: seq<Action>, n: nat, id: nat)
    requires Run(ttl, states, acts) && n <= |acts|
    ensures FreshCopy(ttl, states[n], id) == CopyAfter(ttl, states[0].rows, acts[..n], id)
    ensures id in states[n].cache ==> states[n].cache[id].setAt <= states[n].now
  {
    hide Enabled, Apply, RowAfter, Unfinished, LastRead, FreshCopy;
    if n == 0 {
      NoCopy(ttl, states[0], id);
    } else {
      var a, s := acts[n - 1], states[n - 1];
      CopiesFollow(ttl, states, acts, n - 1, id);
      assert acts[..n][..n - 1] == acts[..n - 1];
      assert Enabled(ttl, a, s) && states[n] == Apply(ttl, a, s);
      StepNeeds(ttl, a, s);
      CopyStep(ttl, a, s, id);
      if a.Set? {
        ReadersFollow(ttl, states, acts, n - 1, a.g);
        var j := LastRead(acts[..n - 1], a.g).value;
        RowsFollow(ttl, states, acts, j, acts[j].id);
        assert acts[..n - 1][..j] == acts[..j];
      } else if a.Invalidate? {
        WritersFollow(ttl, states, acts, n - 1, a.g);
      }
    }
  }

  lemma NoCopy(ttl: nat, s: World, id: nat)
    requires id !in s.cache
    ensures FreshCopy(ttl, s, id) == None
  {
  }

  lemma StepNeeds(ttl: nat, a: Action, s: World)
    requires Enabled(ttl, a, s)
    ensures a.Set? ==> a.g in s.readers
    ensures a.Invalidate? || a.InvalidateFails? ==> a.g in s.writers
  {
  }

  // A failed invalidation is harmless exactly when the schedule says so.
  lemma HarmlessBySchedule(ttl: nat, states: seq<World>, acts: seq<Action>, i: nat)
    requires Run(ttl, states, acts) && i < |acts| && acts[i].InvalidateFails?
    ensures StillHarmless(ttl, states[i], acts[i].g) <==> FailIsHarmless(ttl, states[0].rows, acts, i)
  {
    hide Enabled, RowAfter, Unfinished, CopyAfter, BeingWritten, Pending;
    var g, s := acts[i].g, states[i];
    assert Enabled(ttl, acts[i], s) && states[i + 1] == Apply(ttl, acts[i], s);
    StepNeeds(ttl, acts[i], s);
    WritersFollow(ttl, states, acts, i, g);
    var id := s.writers[g];
    CopiesFollow(ttl, states, acts, i, id);
    RowsFollow(ttl, states, acts, i, id);
    PendingFollows(ttl, states, acts, i + 1, id);
    assert states[i + 1] == s.(writers := s.writers - {g});
  }

  /** When the cache agrees with the table. In any interleaving, every copy that can be hit agrees with the table, but
      for rows whose writer has yet to invalidate them, if and only if: for every Set, the writes of its
      row since the reader's repository read cancel out, or one of their writers has yet to invalidate;
      and every invalidation that fails had nothing stale to remove, or is followed by another. The order
      of Update, write first, leaves schedules that violate this even if no invalidation fails. */
  lemma CoherentExactly(ttl: nat, states: seq<World>, acts: seq<Action>)
    requires Run(ttl, states, acts)
    ensures (forall i :: 0 <= i < |states| ==> Coherent(ttl, states[i])) <==>
            (forall i :: 0 <= i < |acts| ==> ScheduledFresh(ttl, states[0].rows, acts, i))
  {
    hide Enabled, Apply, StillCurrent, StillHarmless, SetIsCurrent, FailIsHarmless, Coherent;
    forall i | 0 <= i < |acts|
      ensures KeepsFresh(ttl, acts[i], states[i]) <==> ScheduledFresh(ttl, states[0].rows, acts, i)
    {
      if acts[i].Set? {
        CurrentBySchedule(ttl, states, acts, i);
      } else if acts[i].InvalidateFails? {
        HarmlessBySchedule(ttl, states, acts, i);
      }
    }
    hide KeepsFresh, ScheduledFresh;
    if forall i :: 0 <= i < |acts| ==> ScheduledFresh(ttl, states[0].rows, acts, i) {
      FreshRunStaysCoherent(ttl, states, acts, |acts|);
    }
    if i: nat :| i < |acts| && !ScheduledFresh(ttl, states[0].rows, acts, i) {
      assert Enabled(ttl, acts[i], states[i]) && states[i + 1] == Apply(ttl, acts[i], states[i]);
      StaleStepBreaks(ttl, acts[i], states[i]);
      assert !Coherent(ttl, states[i + 1]);
    }
  }

  // Between the update and the Set of a reader that read before it.
  function Window(old': Customer, new': Customer): World {
    World(0, map[new'.id := new'], new'.id + 1, map[], map[0 := Reader(new'.id, old', 0)], map[])
  }

  lemma WindowOpens(old': Customer, new': Customer, ttl: nat) returns (states: seq<World>, acts: seq<Action>)
    requires old'.id == new'.id
    ensures acts == [Read(0, new'.id), Write(1, new'), Invalidate(1)]
    ensures Run(ttl, states, acts) && states[|acts|] == Window(old', new')
  {
    hide Run;
    var id := old'.id;
    var s0 := World(0, map[id := old'], id + 1, map[], map[], map[]);
    var s1 := s0.(readers := map[0 := Reader(id, old', 0)]);
    var s2 := s1.(rows := map[id := new'], writers := map[1 := id]);
    states, acts := [s0], [];
    StartRun(ttl, s0);
    assert Apply(ttl, Read(0, id), s0) == s1;
    states, acts := OneMore(ttl, states, acts, Read(0, id), s1);
    assert Apply(ttl, Write(1, new'), s1) == s2;
    states, acts := OneMore(ttl, states, acts, Write(1, new'), s2);
    assert Apply(ttl, Invalidate(1), s2) == Window(old', new');
    states, acts := OneMore(ttl, states, acts, Invalidate(1), Window(old', new'));
  }

  /** The witness: a reader that read before an update and sets after its invalidation leaves the old row in the
      cache with no write in progress, and the next read hits it. */
  lemma UpdateThenStaleHit(old': Customer, new': Customer, ttl: nat) returns (states: seq<World>, acts: seq<Action>)
    requires old'.id == new'.id && old' != new'
    ensures Run(ttl, states, acts) && forall i :: 0 <= i < |acts| ==> !acts[i].InvalidateFails?
    ensures |acts| > 0 && acts[|acts| - 1] == Hit(new'.id)
    ensures var s := states[|acts| - 1];
            && s.writers == map[] && new'.id in s.cache && s.rows == map[new'.id := new']
            && s.cache[new'.id].row == old' != s.rows[new'.id]
  {
    hide Run;
    var id := old'.id;
    states, acts := WindowOpens(old', new', ttl);
    var last := Window(old', new').(cache := map[id := Copy(old', 0)], readers := map[]);
    assert Apply(ttl, Set(0), Window(old', new')) == last;
    states, acts := OneMore(ttl, states, acts, Set(0), last);
    states, acts := OneMore(ttl, states, acts, Hit(id), last);
  }

  lemma StartRun(ttl: nat, s: World)
    requires s.cache == map[] && s.readers == map[] && s.writers == map[]
    requires forall id :: id in s.rows ==> id < s.nextId
    ensures Run(ttl, [s], [])
  {
  }

  lemma OneMore(ttl: nat, states: seq<World>, acts: seq<Action>, a: Action, s: World)
    returns (states': seq<World>, acts': seq<Action>)
    requires Run(ttl, states, acts) && Enabled(ttl, a, states[|acts|]) && s == Apply(ttl, a, states[|acts|])
    ensures states' == states + [s] && acts' == acts + [a] && Run(ttl, states', acts') && |states| == |acts| + 1
  {
    hide Enabled, Apply;
    states', acts' := states + [s], acts + [a];
  }
}
