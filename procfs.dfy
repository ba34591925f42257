/** The part of the kernel's procfs that the module touches: the entries
    directly under /proc (`proc_root`), the `proc_subdir_lock` rwlock that
    guards them, and the primitives `pde_subdir_find`, `remove_proc_entry`,
    `proc_create` and `proc_create_single_data`. Every primitive called with a
    NULL parent works on `proc_root`. */
module ProcFs {
  import opened Wrappers

  /** A non-NULL kernel address; a pointer that may be NULL is an Option<Addr>. */
  type Addr = a: nat | a > 0 witness 1

  /** What serves reads of a /proc entry. */
  datatype Handler =
    | Original                                   // an entry the kernel registered itself
    | Substitute                                 // the module's `uptime_fudger_proc_fops`
    | RestoredViaSingleData(show: Option<Addr>)  // proc_create_single_data with this show function
    | RestoredViaFops(fops: Addr)                // proc_create with this file_operations table

  /** A file_operations table handed to `proc_create`. */
  datatype Fops = FudgerProcFops | KernelFops(addr: Addr)

  /** One call into procfs, as recorded in the trace. */
  datatype Call =
    | WriteLock
    | WriteUnlock
    | SubdirFind(name: string)
    | RemoveEntry(name: string)
    | CreateEntry(name: string, handler: Handler)

  /** Whether `proc_subdir_lock` is held for writing after the calls in `trace`,
      made starting from a free lock. */
  function LockHeldAfter(trace: seq<Call>): bool {
    if trace == [] then false
    else
      match trace[|trace| - 1]
      case WriteLock => true
      case WriteUnlock => false
      case _ => LockHeldAfter(trace[..|trace| - 1])
  }

  /** The lock discipline: the lock is taken only when free and released only
      when held; a lookup runs with the lock held; removal and creation, which
      take the lock themselves, run with it free. */
  predicate Permitted(call: Call, held: bool) {
    match call
    case WriteLock => !held
    case WriteUnlock => held
    case SubdirFind(_) => held
    case RemoveEntry(_) => !held
    case CreateEntry(_, _) => !held
  }

  /** Every call in `trace` was permitted in the lock state it was made in. */
  predicate Disciplined(trace: seq<Call>) {
    trace == [] ||
    (Disciplined(trace[..|trace| - 1]) && Permitted(trace[|trace| - 1], LockHeldAfter(trace[..|trace| - 1])))
  }

  /** Extending a disciplined trace by a call permitted at its end keeps it
      disciplined and moves the lock as the call says. */
  lemma Extend(trace: seq<Call>, call: Call)
    requires Disciplined(trace) && Permitted(call, LockHeldAfter(trace))
    ensures Disciplined(trace + [call])
    ensures LockHeldAfter(trace + [call]) ==
      match call case WriteLock => true case WriteUnlock => false case _ => LockHeldAfter(trace)
  {
  }

  /** The directory `proc_root` with its lock. `trace` is the history of calls
      made on it since the module was loaded. The requires of each primitive
      are the lock discipline (`Permitted`); the lemmas of the Interception
      module show that the calls of each phase are `Disciplined`. */
  class ProcRoot {
    var entries: map<string, Handler>
    var subdirLocked: bool
    ghost var trace: seq<Call>

    constructor (entries: map<string, Handler>)
      ensures this.entries == entries && !subdirLocked && trace == []
    {
      this.entries := entries;
      subdirLocked := false;
      trace := [];
    }

    /** `write_lock(proc_subdir_lock)`; taking it while already held would spin
        forever, so it must be free. */
    method WriteLockSubdir()
      requires !subdirLocked
      modifies this
      ensures subdirLocked
      ensures entries == old(entries) && trace == old(trace) + [WriteLock]
    {
      subdirLocked := true;
      trace := trace + [WriteLock];
    }

    /** `write_unlock(proc_subdir_lock)`. */
    method WriteUnlockSubdir()
      requires subdirLocked
      modifies this
      ensures !subdirLocked
      ensures entries == old(entries) && trace == old(trace) + [WriteUnlock]
    {
      subdirLocked := false;
      trace := trace + [WriteUnlock];
    }

    /** `pde_subdir_find(proc_root, name, len)`, called with `len == |name|`:
        the entry registered under `name`, or NULL. The caller must hold the lock. */
    method PdeSubdirFind(name: string) returns (pde: Option<Handler>)
      requires subdirLocked
      modifies this
      ensures subdirLocked == old(subdirLocked)
      ensures pde.Some? <==> name in entries
      ensures pde.Some? ==> pde.value == entries[name]
      ensures entries == old(entries) && trace == old(trace) + [SubdirFind(name)]
    {
      trace := trace + [SubdirFind(name)];
      pde := if name in entries then Some(entries[name]) else None;
    }

    /** `remove_proc_entry(name, NULL)`: removes the entry if there is one (it
        does not check who registered it). It takes the lock itself, so the
        caller must not hold it. */
    method RemoveProcEntry(name: string)
      requires !subdirLocked
      modifies this
      ensures !subdirLocked
      ensures entries == old(entries) - {name}
      ensures trace == old(trace) + [RemoveEntry(name)]
    {
      trace := trace + [RemoveEntry(name)];
      entries := entries - {name};
    }

    /** Registration shared by the two create calls. `allocOk` is whether the
        kernel could allocate the new entry; when it could not, or when the name
        is already taken, the call fails and nothing changes. */
    method Register(name: string, handler: Handler, allocOk: bool) returns (created: bool)
      requires !subdirLocked
      modifies this
      ensures !subdirLocked
      ensures created <==> allocOk && name !in old(entries)
      ensures entries == if created then old(entries)[name := handler] else old(entries)
      ensures trace == old(trace) + [CreateEntry(name, handler)]
    {
      trace := trace + [CreateEntry(name, handler)];
      created := allocOk && name !in entries;
      if created {
        entries := entries[name := handler];
      }
    }

    /** `proc_create(name, 0, NULL, fops)`; the result stands for the returned
        entry being non-NULL, and `allocOk` for the allocation succeeding. */
    method ProcCreate(name: string, fops: Fops, allocOk: bool) returns (created: bool)
      requires !subdirLocked
      modifies this
      ensures !subdirLocked
      ensures created <==> allocOk && name !in old(entries)
      ensures entries == if created then old(entries)[name := FopsHandler(fops)] else old(entries)
      ensures trace == old(trace) + [CreateEntry(name, FopsHandler(fops))]
    {
      created := Register(name, FopsHandler(fops), allocOk);
    }

    /** `proc_create_single_data(name, 0, NULL, show, NULL)`. */
    method ProcCreateSingleData(name: string, show: Option<Addr>, allocOk: bool) returns (created: bool)
      requires !subdirLocked
      modifies this
      ensures !subdirLocked
      ensures created <==> allocOk && name !in old(entries)
      ensures entries == if created then old(entries)[name := RestoredViaSingleData(show)] else old(entries)
      ensures trace == old(trace) + [CreateEntry(name, RestoredViaSingleData(show))]
    {
      created := Register(name, RestoredViaSingleData(show), allocOk);
    }
  }

  /** The handler an entry created from a file_operations table gets. */
  function FopsHandler(fops: Fops): Handler {
    match fops
    case FudgerProcFops => Substitute
    case KernelFops(addr) => RestoredViaFops(addr)
  }
}
