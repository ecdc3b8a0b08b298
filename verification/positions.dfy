// Shipped offsets in memory, and the copy on disk (internal/logagent/positions.go).
module PositionStore {
  import opened Wrappers
  import opened Entities

  datatype OnDisk = Missing | Unreadable | Corrupt | Saved(m: map<string, Position>)

  datatype LoadError = CannotRead | CannotParse

  // A positions file that is not there is an agent's first start.
  function Loaded(file: OnDisk): Result<map<string, Position>, LoadError> {
    match file
    case Missing => Ok(map[])
    case Unreadable => Err(CannotRead)
    case Corrupt => Err(CannotParse)
    case Saved(m) => Ok(m)
  }

  class Positions {
    var m: map<string, Position>
    var disk: OnDisk

    constructor (file: OnDisk, m: map<string, Position>)
      ensures this.m == m && disk == file
    {
      this.m, disk := m, file;
    }

    static method Load(file: OnDisk) returns (r: Result<Positions, LoadError>)
      ensures r.Ok? <==> Loaded(file).Ok?
      ensures r.Err? ==> r.error == Loaded(file).error
      ensures r.Ok? ==> fresh(r.value) && r.value.m == Loaded(file).value && r.value.disk == file
      ensures r.Ok? <==> file.Missing? || file.Saved?
      ensures r.Ok? ==> r.value.m == if file.Saved? then file.m else map[]
      ensures r.Err? ==> r.error == if file.Unreadable? then CannotRead else CannotParse
    {
      match Loaded(file) {
        case Err(e) => r := Err(e);
        case Ok(m) =>
          var p := new Positions(file, m);
          r := Ok(p);
      }
    }

    method Get(file: string) returns (pos: Option<Position>)
      ensures pos == if file in m then Some(m[file]) else None
    {
      if file in m {
        pos := Some(m[file]);
      } else {
        pos := None;
      }
    }

    method Set(file: string, pos: Position)
      modifies this`m
      ensures m == old(m)[file := pos]
    {
      m := m[file := pos];
    }

    method Retain(keep: set<string>)
      modifies this`m
      ensures m == Restrict(old(m), keep)
      ensures forall file :: file in m <==> file in old(m) && file in keep
      ensures forall file :: file in m ==> m[file] == old(m)[file]
    {
      var left := m.Keys;
      ghost var was := m;
      while left != {}
        invariant left <= was.Keys
        invariant m == map file | file in was && (file in keep || file in left) :: was[file]
        decreases left
      {
        var file :| file in left;
        if file !in keep {
          m := m - {file};
        }
        left := left - {file};
      }
    }

    // A temporary file is renamed over the real one: the disk holds the old
    // positions or the new ones, whichever step fails.
    method Save(renamed: bool) returns (ok: bool)
      modifies this`disk
      ensures ok == renamed
      ensures disk == if ok then Saved(m) else old(disk)
      ensures ok ==> Loaded(disk) == Ok(m)
    {
      if renamed {
        disk := Saved(m);
      }
      ok := renamed;
    }
  }
}
