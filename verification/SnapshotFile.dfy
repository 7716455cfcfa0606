/** The temp-file-then-rename protocol both stores persist with. A file holds the first `written`
    bytes of a sealed snapshot of `size` bytes; authenticated decryption opens whole files only. */
module SnapshotFile {
  /** A sealed snapshot has at least its nonce and tag. */
  type Size = n: nat | n > 0 witness 1

  datatype File<S> = File(snapshot: S, written: nat, size: Size)

  type Dir<S> = map<string, File<S>>

  /** How far one persist attempt got. An error path removes the temp file, a crash leaves it. */
  datatype Stop =
    | NoTemp
    | InWrite(bytes: nat, removed: bool)
    | BeforeRename(removed: bool)
    | RenameFailed
    | Renamed

  datatype Attempt<S> = Attempt(temp: string, snapshot: S, size: Size, stop: Stop)

  function Persist<S>(dir: Dir<S>, path: string, a: Attempt<S>): Dir<S> {
    var whole := File(a.snapshot, a.size, a.size);
    match a.stop
    case NoTemp => dir
    case InWrite(bytes, removed) =>
      if removed then dir - {a.temp}
      else dir[a.temp := File(a.snapshot, if bytes < a.size then bytes else a.size, a.size)]
    case BeforeRename(removed) => if removed then dir - {a.temp} else dir[a.temp := whole]
    case RenameFailed => dir[a.temp := whole]
    case Renamed => (dir - {a.temp})[path := whole]
  }

  /** Attempts and restarts in any order; what a crash left of one attempt stays for the next. */
  function After<S>(dir: Dir<S>, path: string, attempts: seq<Attempt<S>>, n: nat): Dir<S>
    requires n <= |attempts|
  {
    if n == 0 then dir else Persist(After(dir, path, attempts, n - 1), path, attempts[n - 1])
  }

  datatype Loaded<S> = Missing | Refused | Restored(snapshot: S)

  /** loadFromDisk: no file and an empty file are a first start; a partial file is refused. */
  function Load<S>(dir: Dir<S>, path: string): Loaded<S> {
    if path !in dir || dir[path].written == 0 then Missing
    else if dir[path].written < dir[path].size then Refused
    else Restored(dir[path].snapshot)
  }

  /** The snapshot of the last attempt that reached its rename. */
  function LastRenamed<S>(initial: Loaded<S>, attempts: seq<Attempt<S>>, n: nat): Loaded<S>
    requires n <= |attempts|
  {
    if n == 0 then initial
    else if attempts[n - 1].stop.Renamed? then Restored(attempts[n - 1].snapshot)
    else LastRenamed(initial, attempts, n - 1)
  }

  /** Wherever the attempts failed or the process died, a restart finds the snapshot of the last
      completed rename, old or new and never torn, or what was there to begin with. */
  lemma {:induction false} RestartFindsLastRename<S>(dir: Dir<S>, path: string, attempts: seq<Attempt<S>>, n: nat)
    requires n <= |attempts|
    requires forall i :: 0 <= i < |attempts| ==> attempts[i].temp != path
    ensures Load(After(dir, path, attempts, n), path) == LastRenamed(Load(dir, path), attempts, n)
    ensures Load(dir, path) != Refused ==> Load(After(dir, path, attempts, n), path) != Refused
  {
    if n > 0 {
      RestartFindsLastRename(dir, path, attempts, n - 1);
    }
  }

  /** What a start that is not refused has in memory; a first start has `empty`. */
  function Opened<S>(l: Loaded<S>, empty: S): S
    requires l != Refused
  {
    if l.Missing? then empty else l.snapshot
  }

  lemma {:induction false} LastRenamedPrefix<S>(initial: Loaded<S>, attempts: seq<Attempt<S>>, a: Attempt<S>, n: nat)
    requires n <= |attempts|
    ensures LastRenamed(initial, attempts + [a], n) == LastRenamed(initial, attempts, n)
  {
    if n > 0 {
      LastRenamedPrefix(initial, attempts, a, n - 1);
    }
  }
}
