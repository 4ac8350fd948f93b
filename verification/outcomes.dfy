/** Result types and the file model shared by every durable component. */
module Outcomes {
  datatype Option<+T> = None | Some(value: T)

  datatype Result<+T, +E> = Ok(value: T) | Err(error: E)

  /** Largest value of a Go `uint64`; counters refuse to step past it. */
  const MAX_UINT64: nat := 0xFFFF_FFFF_FFFF_FFFF

  const MAX_UINT32: nat := 0xFFFF_FFFF

  /** A file that is only ever replaced by rename. Readers see `visible`. Until the directory sync
      of a rename has returned, a power loss may instead leave any content in `others`. */
  datatype Cell<T(==, !new)> = Cell(visible: T, others: set<T>) {
    predicate Settled() {
      others == {}
    }

    /** The contents a crash may leave behind. */
    predicate Survives(t: T) {
      t == visible || t in others
    }

    function Rename(t: T): (c: Cell<T>)
      ensures c.visible == t
      ensures forall u :: c.Survives(u) <==> u == t || Survives(u)
    {
      Cell(t, others + {visible} - {t})
    }

    function Sync(): (c: Cell<T>)
      ensures c.Settled() && (forall u :: c.Survives(u) <==> u == visible)
    {
      Cell(visible, {})
    }
  }

  /** A directory of such files by name; a name that is not there is a file that never existed. */
  type Directory<T(==, !new)> = map<string, Cell<Option<T>>>

  function At<T(==, !new)>(d: Directory<T>, name: string): Cell<Option<T>> {
    if name in d then d[name] else Cell(None, {})
  }

  /** A directory sync that returns makes every rename in the directory durable. */
  function SyncAll<T(==, !new)>(d: Directory<T>): (r: Directory<T>)
    ensures forall name :: At(r, name) == At(d, name).Sync()
  {
    map name | name in d :: d[name].Sync()
  }
}
