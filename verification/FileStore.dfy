/** The blob directory: content-addressed blobs, and temporary files of uploads in progress. Each
    method makes one system call after another; `fails(n)` says whether call number `n` fails. */
module FileStore {
  import opened Wrappers

  /** The contents of the directory. */
  datatype Disk = Disk(blobs: map<string, Bytes>, temps: map<int, Bytes>)

  /** The answer of an operation, the directory after it, and the number of the next call. */
  datatype Outcome = Outcome(ok: bool, disk: Disk, next: nat)

  function Without(d: Disk, name: int): Disk {
    d.(temps := d.temps - {name})
  }

  /** os.Rename(temp, destination) */
  function Moved(d: Disk, name: int, key: string): Disk
    requires name in d.temps
  {
    Disk(d.blobs[key := d.temps[name]], d.temps - {name})
  }

  /** Chmod after the rename, undone by Remove(destination). `d` is the directory before the rename. */
  function Renamed(d: Disk, name: int, key: string, fails: nat -> bool, n: nat): Outcome
    requires name in d.temps
  {
    if !fails(n) then Outcome(true, Moved(d, name, key), n + 1)
    else if fails(n + 1) then Outcome(false, Moved(d, name, key), n + 2)
    else Outcome(false, Without(d, name), n + 2)
  }

  /** Remove(temporary file) if the destination exists, Rename otherwise. */
  function Placed(d: Disk, name: int, key: string, fails: nat -> bool, n: nat): Outcome {
    if fails(n) || name !in d.temps then Outcome(false, d, n + 1)
    else if key in d.blobs then Outcome(true, Without(d, name), n + 1)
    else Renamed(d, name, key, fails, n + 1)
  }

  /** Commit, after MkdirAll and Stat. */
  function Committed(d: Disk, name: int, key: string, fails: nat -> bool, n: nat): Outcome {
    if fails(n) then Outcome(false, d, n + 1)
    else if fails(n + 1) then Outcome(false, d, n + 2)
    else Placed(d, name, key, fails, n + 2)
  }

  /** Whatever fails, Commit touches no other blob and no other temporary file, never changes a blob
      that exists, and a new blob is the staged content; after a success the blob exists. */
  lemma CommitOnlyAdds(d: Disk, name: int, key: string, fails: nat -> bool, n: nat, other: string)
    requires name in d.temps
    ensures var o := Committed(d, name, key, fails, n);
            && (other in d.blobs ==> other in o.disk.blobs && o.disk.blobs[other] == d.blobs[other])
            && (other in o.disk.blobs && other !in d.blobs ==> other == key && o.disk.blobs[other] == d.temps[name])
            && (o.ok ==> key in o.disk.blobs && name !in o.disk.temps)
            && o.disk.temps - {name} == d.temps - {name}
  {
  }

  /** A Commit that fails leaves every blob as it was, unless the new blob could neither be made readable nor
      removed again; without a failing call it succeeds. */
  lemma CommitIsUndone(d: Disk, name: int, key: string, fails: nat -> bool, n: nat)
    requires name in d.temps
    ensures var o := Committed(d, name, key, fails, n);
            && (!o.ok && !(fails(n + 3) && fails(n + 4)) ==> o.disk.blobs == d.blobs)
            && (!fails(n) && !fails(n + 1) && !fails(n + 2) && !fails(n + 3) ==> o.ok)
            && (o.ok ==> o.disk.temps == d.temps - {name}
                         && o.disk.blobs == if key in d.blobs then d.blobs else d.blobs[key := d.temps[name]])
  {
  }

  class FileStorage {
    var blobs: map<string, Bytes>
    var temps: map<int, Bytes>

    function Snapshot(): Disk
      reads this
    {
      Disk(blobs, temps)
    }

    /** Opening removes stale uploads as far as possible; `stuck` names those that stay. */
    constructor (found: Disk, stuck: set<int>)
      ensures blobs == found.blobs
      ensures temps == map t | t in found.temps && t in stuck :: found.temps[t]
    {
      blobs := found.blobs;
      temps := map t | t in found.temps && t in stuck :: found.temps[t];
    }

    /** CreateTemp, Copy of at most one byte more than the limit, Sync, Close; Remove on the way out. */
    method Stage(content: Bytes, maxBytes: nat, name: int, fails: nat -> bool) returns (r: Result<()>)
      requires name !in temps
      modifies this`temps
      ensures r.Ok? <==> !fails(0) && !fails(1) && !fails(2) && !fails(3) && 0 < |content| <= maxBytes
      ensures r.Ok? ==> temps == old(temps)[name := content]
      ensures r.Err? && !fails(4) ==> temps == old(temps)
      ensures r.Err? ==> temps - {name} == old(temps)
      ensures r.Err? ==> r.error == if fails(0) || fails(1) then Fault else if content == [] then EmptyUpload
                                    else if |content| > maxBytes then UploadTooLarge else Fault
    {
      ghost var was := temps;
      if fails(0) { return Err(Fault); }
      var limited := if |content| > maxBytes + 1 then content[..maxBytes + 1] else content;
      temps := temps[name := limited];
      if fails(1) || |limited| == 0 || |limited| > maxBytes || fails(2) || fails(3) {
        r := Err(if fails(1) then Fault else if |limited| == 0 then EmptyUpload
            else if |limited| > maxBytes then UploadTooLarge else Fault);
        if !fails(4) {
          temps := temps - {name};
        }
        assert temps - {name} == was;
        return;
      }
      r := Ok(());
    }

    method Commit(name: int, key: string, fails: nat -> bool, n: nat) returns (ok: bool, next: nat)
      modifies this
      ensures Outcome(ok, Snapshot(), next) == Committed(old(Snapshot()), name, key, fails, n)
    {
      if fails(n) { return false, n + 1; }
      if fails(n + 1) { return false, n + 2; }
      if key in blobs {
        if fails(n + 2) || name !in temps { return false, n + 3; }
        temps := temps - {name};
        return true, n + 3;
      }
      if fails(n + 2) || name !in temps { return false, n + 3; }
      ghost var was := blobs;
      blobs, temps := blobs[key := temps[name]], temps - {name};
      if fails(n + 3) {
        if !fails(n + 4) {
          blobs := blobs - {key};
          assert blobs == was;
        }
        return false, n + 5;
      }
      return true, n + 4;
    }

    method Discard(name: int, fault: bool)
      modifies this`temps
      ensures temps == if fault then old(temps) else old(temps) - {name}
    {
      if !fault { temps := temps - {name}; }
    }

    method Open(key: string, fault: bool) returns (r: Result<Bytes>)
      ensures r == if fault || key !in blobs then Err(Fault) else Ok(blobs[key])
    {
      if fault || key !in blobs { return Err(Fault); }
      r := Ok(blobs[key]);
    }

    method Remove(key: string, fault: bool) returns (ok: bool)
      modifies this`blobs
      ensures blobs == if fault then old(blobs) else old(blobs) - {key}
      ensures ok <==> !fault && key in old(blobs)
    {
      if fault || key !in blobs {
        assert !fault ==> blobs == blobs - {key};
        return false;
      }
      blobs := blobs - {key};
      ok := true;
    }
  }
}
