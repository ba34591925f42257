# uptime_fudger, modelled in Dafny

`uptime_fudger` is a Linux kernel module that replaces /proc/uptime with its own
entry. The new entry reports the boot time and the idle time, each raised by
the module parameter `fudge` (in seconds). When the module is unloaded it puts a
kernel entry back. The module reaches internals that the kernel does not export
by looking them up by name with `kallsyms_lookup_name`:

- `proc_root`
- `proc_subdir_lock`
- `pde_subdir_find`
- `proc_create_single_data`
- `uptime_proc_fops`
- `uptime_proc_show`

This project models the two pieces of sequential logic in `uptime_fudger.c`, and
proves properties of those models:

- **Install and uninstall** (`uptime_fudger_proc_init`, `uptime_fudger_proc_exit`).
  This is a state machine over the entries of `proc_root` and the
  `proc_subdir_lock` rwlock. It also covers the three globals that the two phases
  share: `__uptime`, `__proc_create_single_data` and `__uptime_proc_fops`.
- **The report** (`uptime_fudger_proc_show`). The handler sums the per-CPU idle
  counters in a u64. It splits the sum into seconds and nanoseconds and adds
  `fudge` to both second counts. It then prints `"%lu.%02lu %lu.%02lu\n"`.

Modules:

- `Wrappers` (wrappers.dfy): `Option`, used for every pointer that may be NULL.
- `CInt` (c_int.dfy): the C integer types of a 64-bit kernel (u32, u64, long),
  two's-complement wrap-around and the `(unsigned long)` cast.
- `Decimal` (decimal.dfy): the `%lu` and `%02lu` conversions, and a decimal
  parser that is their inverse.
- `UptimeReport` (report.dfy): `ProcShow`. Its result is specified by
  `Expected`, which states the report on mathematical integers. A line parser
  (`ParseLine`) is the inverse of the formatter.
- `ProcFs` (procfs.dfy): the class `ProcRoot`. It holds the entries of
  `proc_root`, the lock as a held/free flag and a ghost trace of the procfs calls
  made. Its methods are the kernel primitives the module calls. Each method's
  `requires` states the lock state the kernel needs: the lookup runs with the
  lock held, while removal and creation take the lock themselves and so must run
  with it free. `Disciplined` states that discipline as a predicate on a trace of
  calls.
- `Interception` (interception.dfy): the class `UptimeFudger`. It holds the
  module's globals. `Init` and `Exit` model the two entry points. The pure
  functions `InstallCalls` and `UninstallCalls` give the procfs calls of each
  phase, and two lemmas prove the lock discipline of those calls.
  `LoadThenUnload` runs both phases the way the module loader does and states the
  round trip.

Choices made in the model:

- A handler is one of `Original`, `Substitute`, `RestoredViaSingleData(show)` or
  `RestoredViaFops(fops)`.
- The kernel's symbol table is a parameter of each phase: a map from symbol to a
  non-zero address. `SymbolName` gives the name each symbol is looked up by. A
  missing symbol stands for a NULL result.
- `__uptime` is only ever compared with NULL, and it dangles once the entry is
  removed. The model therefore keeps it as a flag that says whether an "uptime"
  entry was found.
- `Exit` may be called only after an `Init` that returned 0. The kernel's module
  loader guarantees this.
- `uptime_fudger_proc_exit` passes the `uptime_proc_show` it looked up to
  `proc_create_single_data` without checking it for NULL
  (uptime_fudger.c:154-161). The model records this as
  `RestoredViaSingleData(None)`.
- `proc_create` and `proc_create_single_data` can fail because the kernel
  cannot allocate the entry, and the module ignores their results
  (uptime_fudger.c:135, 160-164). Each create call therefore takes the
  allocation outcome as an input. A failed creation at load still returns 0
  and leaves no "uptime" entry. A failed creation at unload also leaves no
  "uptime" entry.
- The model follows the code in not checking, before removal, who registered the
  "uptime" entry.
- The entry the find function returns is treated, as the code treats it, as an
  entry of the same directory that `remove_proc_entry(name, NULL)` and
  `proc_create(name, 0, NULL, ...)` work on.
- Integers follow an LP64 build: `long`, `time64_t` and `unsigned long` are 64
  bits wide. Signed overflow wraps, because the kernel is built with
  `-fno-strict-overflow`. With a negative `fudge` larger than the uptime, the
  printed seconds therefore wrap to `uptime + fudge + 2^64` (see the ensures of
  `Expected`).

## Model

| member | source | states |
|---|---|---|
| CInt.WrapU64 | uptime_fudger.c:41-42 | storing a value in a u64 keeps it congruent modulo 2^64, and exact when it is in range |
| CInt.WrapS64 | uptime_fudger.c:56-57 | storing a value in a 64-bit signed variable keeps it congruent modulo 2^64, and exact when it is in range |
| CInt.AsUnsignedLong | uptime_fudger.c:61-63 | the cast gives the residue of x modulo 2^64 |
| CInt.AccumulateU64 | uptime_fudger.c:40-42 | adding a term to a u64 accumulator that holds a sum modulo 2^64 gives the new sum modulo 2^64 |
| CInt.AddThenCast | uptime_fudger.c:56-63 | a wrapping signed addition followed by the unsigned-long cast is the mathematical sum modulo 2^64, whatever the signs |
| Decimal.FormatLu | uptime_fudger.c:60 | `%lu` prints a non-empty string of digits with no leading zero, except for "0" itself |
| Decimal.Format02Lu | uptime_fudger.c:60 | `%02lu` prints only digits |
| Decimal.ParseFormatLu | uptime_fudger.c:60 | parsing what `%lu` printed gives back the number |
| Decimal.FormatParseDecimal | uptime_fudger.c:60 | every canonical digit string is what `%lu` prints for its value, so formatting and parsing are inverse bijections |
| Decimal.FormatLuWidth | uptime_fudger.c:60 | `%lu` prints one digit exactly when the value is below 10, and at most two below 100 |
| Decimal.Format02LuOfCentis | uptime_fudger.c:60-64 | `%02lu` prints a value below 100 as exactly its tens digit and its units digit, and the two digits parse back to the value |
| UptimeReport.DivU64Rem | uptime_fudger.c:52 | `div_u64_rem` returns a quotient and a remainder with quotient * divisor + remainder == dividend and remainder < divisor |
| UptimeReport.IdleTimespec | uptime_fudger.c:52-53 | the idle timespec satisfies tv_sec * 10^9 + tv_nsec == the nanosecond total, with 0 <= tv_nsec < 10^9 and a non-negative tv_sec |
| UptimeReport.Centis | uptime_fudger.c:62-64 | the fractional field of a normalized timespec lies in 0..99 and is the number of whole centiseconds in tv_nsec |
| UptimeReport.Expected | uptime_fudger.c:40-64 | both fractions are below 100; each printed second count (uptime, and the idle seconds of the u64 idle total) is that count + fudge when that is non-negative, and that count + fudge + 2^64 otherwise |
| UptimeReport.LineShape | uptime_fudger.c:60 | the line `FormatLine` writes for `"%lu.%02lu %lu.%02lu\n"` is digits with exactly two decimal points and one space, and ends in its only newline |
| UptimeReport.ProcShow | uptime_fudger.c:32-67 | the handler returns 0 and prints exactly the line for `Expected`: both seconds raised by fudge modulo 2^64, the idle total taken as (sum of every possible CPU's idle counter) modulo 2^64, and two-digit centiseconds |
| UptimeReport.ParseFormatLine | uptime_fudger.c:59-64 | every line printed with fractions below 100 parses back to exactly the four numbers printed |
| UptimeReport.ReportReadsBack | uptime_fudger.c:59-64 | a reader of the substitute's output recovers the fudged seconds and the centiseconds of both fields |
| UptimeReport.FudgeIsExact | uptime_fudger.c:55-57 | when the idle sum does not overflow and neither fudged second count is negative, both fields are printed as exactly the sum, and the idle seconds are the idle nanoseconds divided by 10^9 |
| UptimeReport.ExampleLine | uptime_fudger.c:55-64 | with fudge 3600, an uptime of 100.50 s and an idle time of 80.25 s over two CPUs, the line is "3700.50 3680.25\n" |
| ProcFs.ProcRoot.WriteLockSubdir | uptime_fudger.c:120 | `write_lock` needs the lock free and leaves it held; the entries are unchanged |
| ProcFs.ProcRoot.WriteUnlockSubdir | uptime_fudger.c:126 | `write_unlock` needs the lock held and leaves it free; the entries are unchanged |
| ProcFs.ProcRoot.PdeSubdirFind | uptime_fudger.c:123 | the lookup needs the lock held; it returns the entry registered under the name, or NULL, and changes nothing |
| ProcFs.ProcRoot.RemoveProcEntry | uptime_fudger.c:131 | removal needs the lock free, and afterwards the name is absent and every other entry is untouched |
| ProcFs.ProcRoot.ProcCreate | uptime_fudger.c:135 | creation needs the lock free; when the allocation succeeds and the name is free it adds the entry for the fops table, and otherwise it fails with no change |
| ProcFs.ProcRoot.ProcCreateSingleData | uptime_fudger.c:160-161 | like `proc_create`, but the entry is served by the given show function, which may be NULL |
| Interception.SymbolsSufficient | uptime_fudger.c:107-109 | install goes ahead exactly when `proc_root`, `proc_subdir_lock` and `pde_subdir_find` are all found and at least one of `proc_create_single_data` and `uptime_proc_fops` is |
| Interception.RestoredHandler | uptime_fudger.c:153-165 | the restored entry is never the module's substitute; it goes through `proc_create_single_data` with the unload-time `uptime_proc_show` exactly when `proc_create_single_data` was found at install, and otherwise through `proc_create` with the `uptime_proc_fops` found at install |
| Interception.UptimeFudger.constructor | uptime_fudger.c:23-30 | the three globals start out NULL |
| Interception.UptimeFudger.Init | uptime_fudger.c:81-138 | returns -1 exactly when a mandatory symbol or both restore symbols are missing, and then leaves the entries, the lock and the procfs calls unchanged. On success it returns 0, whether or not the creation succeeded; "uptime" maps to the substitute, or is absent when the allocation failed; `__uptime` is set exactly when an original existed; the calls are lock, lookup, unlock, remove if found, create; the lock is free at the end |
| Interception.UptimeFudger.Exit | uptime_fudger.c:140-166 | always removes "uptime". With no original it leaves "uptime" absent and creates nothing. Otherwise it recreates "uptime", unless the allocation fails, with `proc_create_single_data` and the `uptime_proc_show` looked up at unload if `__proc_create_single_data` was found at install, else with `proc_create` and `__uptime_proc_fops`. Other entries are untouched and the lock is free at the end |
| Interception.InstallLockDiscipline | uptime_fudger.c:119-135 | install's calls obey the lock discipline: the lock is taken immediately before the lookup and held only for it, removal and creation run with the lock free, and the lock is free at the end |
| Interception.UninstallLockDiscipline | uptime_fudger.c:143-165 | uninstall's calls obey the lock discipline and are all made with the lock free |
| Interception.LoadThenUnload | uptime_fudger.c:81-166 | a failed load leaves every entry as it was. A load then unload leaves "uptime" present exactly when it was present before and the unload's creation succeeded, served by the restored handler, and leaves every other entry unchanged |

## Left out

- `kallsyms_lookup_name` and the casts of its result: foreign kernel calls. The symbol table is an input of each phase.
- The addresses found for `proc_root`, `proc_subdir_lock` and `pde_subdir_find` are only tested against NULL. The model takes them to be the directory and lock that `ProcRoot` stands for.
- The `LINUX_VERSION_CODE` choice between `ktime_get_boottime_ts64` and `get_monotonic_boottime64`: a clock call. The boot time is an input of `ProcShow`, required to be a normalized timespec (0 <= tv_nsec < 10^9), as the kernel's clocks deliver it.
- `kcpustat_cpu(i).cpustat[CPUTIME_IDLE]` and the possible-CPU mask: per-CPU kernel state. Their values, one per possible CPU, are an input of `ProcShow`.
- The seq_file and file-operations plumbing (`uptime_fudger_proc_open`, `single_open`, `seq_read`, `seq_lseek`, `single_release`, the `uptime_fudger_proc_fops` table): kernel I/O. The table appears only as the `Substitute` handler tag, and the text `seq_printf` writes is returned as a string.
- The real semantics of `rwlock_t` and concurrent readers of /proc: concurrency. The lock is a held/free flag, used only to prove the call order.
- The `printk` diagnostics, `module_param`, `MODULE_PARM_DESC`, `MODULE_LICENSE`, `module_init` and `module_exit`: logging and loader mechanics. `fudge` is a parameter of `ProcShow`, and `LoadThenUnload` stands for the loader.
- The entry's mode and parent arguments (0 and NULL), and the name length `6` passed to `pde_subdir_find`, which always equals the length of "uptime".
- What reading an entry restored with a NULL `uptime_proc_show` would do: kernel behaviour outside the module.
