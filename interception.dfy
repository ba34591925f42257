/** `uptime_fudger_proc_init` and `uptime_fudger_proc_exit`: the module finds
    the unexported procfs internals by name, replaces the /proc/uptime entry
    with its own and, when unloaded, puts a kernel entry back. The kernel's
    symbol table is a parameter of each phase; the three globals the two
    phases share are the fields of `UptimeFudger`. */
module Interception {
  import opened Wrappers
  import opened ProcFs

  /** The name of the entry replaced, found, and restored. */
  const UPTIME: string := "uptime"

  /** The kernel symbols the module looks up. */
  datatype Symbol =
    | ProcRootSym
    | ProcSubdirLockSym
    | PdeSubdirFindSym
    | ProcCreateSingleDataSym
    | UptimeProcFopsSym
    | UptimeProcShowSym

  /** The name under which each symbol is looked up. */
  function SymbolName(sym: Symbol): string {
    match sym
    case ProcRootSym => "proc_root"
    case ProcSubdirLockSym => "proc_subdir_lock"
    case PdeSubdirFindSym => "pde_subdir_find"
    case ProcCreateSingleDataSym => "proc_create_single_data"
    case UptimeProcFopsSym => "uptime_proc_fops"
    case UptimeProcShowSym => "uptime_proc_show"
  }

  /** The addresses `kallsyms_lookup_name` can find at one moment, keyed by
      symbol (the lookup goes by `SymbolName`). */
  type SymbolTable = map<Symbol, Addr>

  /** `kallsyms_lookup_name(SymbolName(sym))`: the address of a symbol, or NULL. */
  function KallsymsLookupName(kallsyms: SymbolTable, sym: Symbol): Option<Addr> {
    if sym in kallsyms then Some(kallsyms[sym]) else None
  }

  /** The install check: the three lookup symbols and at least one of the two
      symbols that make restoring possible. */
  predicate SymbolsSufficient(kallsyms: SymbolTable): (ok: bool)
    ensures ok <==> {ProcRootSym, ProcSubdirLockSym, PdeSubdirFindSym} <= kallsyms.Keys
                    && (ProcCreateSingleDataSym in kallsyms || UptimeProcFopsSym in kallsyms)
  {
    && KallsymsLookupName(kallsyms, ProcRootSym).Some?
    && KallsymsLookupName(kallsyms, ProcSubdirLockSym).Some?
    && KallsymsLookupName(kallsyms, PdeSubdirFindSym).Some?
    && (KallsymsLookupName(kallsyms, ProcCreateSingleDataSym).Some?
        || KallsymsLookupName(kallsyms, UptimeProcFopsSym).Some?)
  }

  /** The lifecycle the module loader drives: init once; exit once, and only
      after an init that returned 0. */
  datatype Phase = Loaded | Installed | Aborted | Unloaded

  /** The procfs calls of a successful install: the lock is held for the
      lookup alone; the old entry, if found, is removed; the substitute is
      created. */
  function InstallCalls(found: bool): seq<Call> {
    LookupCalls() + RemovalCalls(found) + [CreateEntry(UPTIME, Substitute)]
  }

  /** The locked lookup. */
  function LookupCalls(): seq<Call> {
    [WriteLock, SubdirFind(UPTIME), WriteUnlock]
  }

  /** The removal of the entry found, if one was. */
  function RemovalCalls(found: bool): seq<Call> {
    if found then [RemoveEntry(UPTIME)] else []
  }

  /** Concatenation regrouped, for the install trace. */
  lemma Regroup(history: seq<Call>, a: seq<Call>, b: seq<Call>, c: seq<Call>)
    ensures history + a + b + c == history + (a + b + c)
  {
  }

  /** The procfs calls of uninstall: the entry is removed and, when there was
      an original, the restored one is created. */
  function UninstallCalls(hadOriginal: bool, restored: Handler): seq<Call> {
    [RemoveEntry(UPTIME)] + (if hadOriginal then [CreateEntry(UPTIME, restored)] else [])
  }

  /** Install's calls respect the lock discipline and leave the lock free; the
      lock is taken right before the lookup and held for nothing else: after
      any prefix of the calls it is held exactly when the next call is the
      lookup or the unlock that follows it. */
  lemma InstallLockDiscipline(found: bool)
    ensures Disciplined(InstallCalls(found)) && !LockHeldAfter(InstallCalls(found))
    ensures InstallCalls(found)[0] == WriteLock && InstallCalls(found)[1] == SubdirFind(UPTIME)
    ensures forall i :: 0 <= i < |InstallCalls(found)| ==>
      (LockHeldAfter(InstallCalls(found)[..i]) <==> InstallCalls(found)[i] in {SubdirFind(UPTIME), WriteUnlock})
  {
    var calls := InstallCalls(found);
    assert calls[..0] == [];
    assert calls[..1] == [WriteLock];
    assert calls[..2] == [WriteLock, SubdirFind(UPTIME)];
    assert calls[..3] == [WriteLock, SubdirFind(UPTIME), WriteUnlock];
    assert calls[..3][..2] == calls[..2] && calls[..2][..1] == calls[..1] && calls[..1][..0] == calls[..0];
    Extend([], WriteLock);
    assert [] + [WriteLock] == calls[..1];
    Extend(calls[..1], SubdirFind(UPTIME));
    assert calls[..1] + [SubdirFind(UPTIME)] == calls[..2];
    Extend(calls[..2], WriteUnlock);
    assert calls[..2] + [WriteUnlock] == calls[..3];
    if found {
      assert calls[..4] == calls[..3] + [RemoveEntry(UPTIME)];
      assert calls[..4][..3] == calls[..3];
      Extend(calls[..3], RemoveEntry(UPTIME));
      Extend(calls[..4], CreateEntry(UPTIME, Substitute));
      assert calls[..5] == calls && calls[..5][..4] == calls[..4];
      assert calls[..4] + [CreateEntry(UPTIME, Substitute)] == calls;
    } else {
      Extend(calls[..3], CreateEntry(UPTIME, Substitute));
      assert calls[..4] == calls && calls[..4][..3] == calls[..3];
      assert calls[..3] + [CreateEntry(UPTIME, Substitute)] == calls;
    }
  }

  /** Uninstall's calls are all made with the lock free, and leave it free. */
  lemma UninstallLockDiscipline(hadOriginal: bool, restored: Handler)
    ensures Disciplined(UninstallCalls(hadOriginal, restored))
    ensures !LockHeldAfter(UninstallCalls(hadOriginal, restored))
    ensures forall i :: 0 <= i < |UninstallCalls(hadOriginal, restored)| ==>
      !LockHeldAfter(UninstallCalls(hadOriginal, restored)[..i])
  {
    var calls := UninstallCalls(hadOriginal, restored);
    assert calls[..0] == [];
    assert calls[..1] == [RemoveEntry(UPTIME)] && calls[..1][..0] == [];
    Extend([], RemoveEntry(UPTIME));
    assert [] + [RemoveEntry(UPTIME)] == calls[..1];
    if hadOriginal {
      Extend(calls[..1], CreateEntry(UPTIME, restored));
      assert calls[..2] == calls && calls[..2][..1] == calls[..1];
      assert calls[..1] + [CreateEntry(UPTIME, restored)] == calls;
    } else {
      assert calls[..1] == calls;
    }
  }

  /** The entry uninstall puts back: through `proc_create_single_data` with
      the `uptime_proc_show` found now, if that function was found at install
      time; otherwise through `proc_create` with the `uptime_proc_fops` found
      at install time. */
  function RestoredHandler(procCreateSingleData: Option<Addr>, uptimeProcFops: Option<Addr>,
                           uptimeProcShow: Option<Addr>): (r: Handler)
    requires procCreateSingleData.Some? || uptimeProcFops.Some?
    ensures r != Substitute && r != Original
    ensures r.RestoredViaSingleData? <==> procCreateSingleData.Some?
    ensures r.RestoredViaSingleData? ==> r.show == uptimeProcShow
    ensures r.RestoredViaFops? ==> uptimeProcFops == Some(r.fops)
  {
    if procCreateSingleData.Some? then RestoredViaSingleData(uptimeProcShow)
    else RestoredViaFops(uptimeProcFops.value)
  }

  /** The module's globals: `__uptime` (only ever tested against NULL, so a
      flag), `__proc_create_single_data` and `__uptime_proc_fops`. */
  class UptimeFudger {
    var uptime: bool
    var procCreateSingleData: Option<Addr>
    var uptimeProcFops: Option<Addr>
    ghost var phase: Phase

    /** An installed module can always restore: it found at least one of the
        two restore symbols. */
    ghost predicate Valid()
      reads this
    {
      phase == Installed ==> procCreateSingleData.Some? || uptimeProcFops.Some?
    }

    /** The globals as the module is loaded: all NULL. */
    constructor ()
      ensures Valid() && phase == Loaded
      ensures !uptime && procCreateSingleData == None && uptimeProcFops == None
    {
      uptime := false;
      procCreateSingleData := None;
      uptimeProcFops := None;
      phase := Loaded;
    }

    /** `uptime_fudger_proc_init`; `createOk` is whether the kernel can
        allocate the substitute entry. The result of `proc_create` is not
        checked, so a failed creation still returns 0, with no "uptime" entry. */
    method Init(fs: ProcRoot, kallsyms: SymbolTable, createOk: bool) returns (ret: int)
      requires Valid() && phase == Loaded
      requires !fs.subdirLocked
      modifies this, fs
      ensures Valid() && !fs.subdirLocked
      ensures procCreateSingleData == KallsymsLookupName(kallsyms, ProcCreateSingleDataSym)
      ensures uptimeProcFops == KallsymsLookupName(kallsyms, UptimeProcFopsSym)
      ensures ret == (if SymbolsSufficient(kallsyms) then 0 else -1)
      ensures ret != 0 ==> phase == Aborted && uptime == old(uptime)
      ensures ret != 0 ==> fs.entries == old(fs.entries) && fs.trace == old(fs.trace)
      ensures ret == 0 ==> phase == Installed && uptime == (UPTIME in old(fs.entries))
      ensures ret == 0 && createOk ==> fs.entries == old(fs.entries)[UPTIME := Substitute]
      ensures ret == 0 && !createOk ==> fs.entries == old(fs.entries) - {UPTIME}
      ensures ret == 0 ==> fs.trace == old(fs.trace) + InstallCalls(uptime)
    {
      var procRoot := KallsymsLookupName(kallsyms, ProcRootSym);
      var procSubdirLock := KallsymsLookupName(kallsyms, ProcSubdirLockSym);
      var pdeSubdirFind := KallsymsLookupName(kallsyms, PdeSubdirFindSym);
      procCreateSingleData := KallsymsLookupName(kallsyms, ProcCreateSingleDataSym);
      uptimeProcFops := KallsymsLookupName(kallsyms, UptimeProcFopsSym);

      if (procRoot.None? || procSubdirLock.None? || pdeSubdirFind.None?)
         || !(procCreateSingleData.Some? || uptimeProcFops.Some?)
      {
        phase := Aborted;
        return -1;
      }

      ghost var before := fs.entries;
      ghost var history := fs.trace;

      fs.WriteLockSubdir();
      var pde := fs.PdeSubdirFind(UPTIME);
      uptime := pde.Some?;
      fs.WriteUnlockSubdir();
      assert fs.trace == history + LookupCalls();
      ghost var looked := fs.trace;

      if uptime {
        fs.RemoveProcEntry(UPTIME);
      }
      assert fs.trace == looked + RemovalCalls(uptime);
      assert fs.entries == before - {UPTIME};
      ghost var removed := fs.trace;

      // the result of proc_create is not checked
      var _ := fs.ProcCreate(UPTIME, FudgerProcFops, createOk);
      assert fs.trace == removed + [CreateEntry(UPTIME, Substitute)];
      assert createOk ==> fs.entries == before[UPTIME := Substitute];
      Regroup(history, LookupCalls(), RemovalCalls(uptime), [CreateEntry(UPTIME, Substitute)]);
      phase := Installed;
      ret := 0;
    }

    /** `uptime_fudger_proc_exit`; `kallsyms` is the symbol table at unload time,
        consulted only for `uptime_proc_show`, and `restoreOk` is whether the
        kernel can allocate the restored entry (the result is not checked). */
    method Exit(fs: ProcRoot, kallsyms: SymbolTable, restoreOk: bool)
      requires Valid() && phase == Installed
      requires !fs.subdirLocked
      modifies this`phase, fs
      ensures Valid() && phase == Unloaded
      ensures !fs.subdirLocked
      ensures !uptime ==> fs.entries == old(fs.entries) - {UPTIME}
      ensures uptime && !restoreOk ==> fs.entries == old(fs.entries) - {UPTIME}
      ensures uptime && restoreOk ==> fs.entries == old(fs.entries)[UPTIME := RestoredHandler(
        procCreateSingleData, uptimeProcFops, KallsymsLookupName(kallsyms, UptimeProcShowSym))]
      ensures fs.trace == old(fs.trace) + UninstallCalls(uptime, RestoredHandler(
        procCreateSingleData, uptimeProcFops, KallsymsLookupName(kallsyms, UptimeProcShowSym)))
    {
      ghost var restored := RestoredHandler(
        procCreateSingleData, uptimeProcFops, KallsymsLookupName(kallsyms, UptimeProcShowSym));
      ghost var before := fs.entries;

      fs.RemoveProcEntry(UPTIME);

      if !uptime {
        assert UninstallCalls(uptime, restored) == [RemoveEntry(UPTIME)];
        phase := Unloaded;
        return;
      }

      var uptimeProcShow := KallsymsLookupName(kallsyms, UptimeProcShowSym);
      ghost var removed := fs.trace;

      if procCreateSingleData.Some? {
        // uptime_proc_show is passed on whether or not it was found
        var _ := fs.ProcCreateSingleData(UPTIME, uptimeProcShow, restoreOk);
      } else {
        var _ := fs.ProcCreate(UPTIME, KernelFops(uptimeProcFops.value), restoreOk);
      }
      assert restoreOk ==> fs.entries == (before - {UPTIME})[UPTIME := restored];
      assert (before - {UPTIME})[UPTIME := restored] == before[UPTIME := restored];
      assert fs.trace == removed + [CreateEntry(UPTIME, restored)];
      assert UninstallCalls(uptime, restored) == [RemoveEntry(UPTIME), CreateEntry(UPTIME, restored)];
      phase := Unloaded;
    }
  }

  /** A load followed by an unload, as the module loader runs them on a
      /proc whose entries are `entries`: init, and exit only if init returned 0.
      `createOk` and `restoreOk` are whether the kernel can allocate the entry
      created at load and the one created at unload. Gives init's result and
      the entries left at the end. */
  method LoadThenUnload(entries: map<string, Handler>, atLoad: SymbolTable, atUnload: SymbolTable,
                        createOk: bool, restoreOk: bool)
    returns (ret: int, after: map<string, Handler>)
    ensures ret == 0 <==> SymbolsSufficient(atLoad)
    ensures ret != 0 ==> after == entries
    ensures ret == 0 ==> (UPTIME in after <==> UPTIME in entries && restoreOk)
    ensures ret == 0 && UPTIME in entries && restoreOk ==> after[UPTIME] == RestoredHandler(
      KallsymsLookupName(atLoad, ProcCreateSingleDataSym), KallsymsLookupName(atLoad, UptimeProcFopsSym),
      KallsymsLookupName(atUnload, UptimeProcShowSym))
    ensures forall name :: name != UPTIME ==> (name in after <==> name in entries)
    ensures forall name :: name != UPTIME && name in entries ==> after[name] == entries[name]
  {
    var fs := new ProcRoot(entries);
    var fudger := new UptimeFudger();
    ret := fudger.Init(fs, atLoad, createOk);
    if ret == 0 {
      fudger.Exit(fs, atUnload, restoreOk);
    }
    after := fs.entries;
  }
}
