# Thread credentials of the Gramine LibOS

This project models the credential syscalls of Gramine's library OS
(`libos/src/sys/libos_getuid.c`). Every LibOS thread carries a user triple
(real, effective and saved user ID), a group triple, and a list of
supplementary group IDs. The syscalls read these fields and change them
under Linux-like privilege rules. A call that is refused returns a negative
errno (`-EPERM`, `-EINVAL`, `-EFAULT`, `-ENOMEM`) and leaves the state as it
was.

Files:

- `credentials.dfy` (module `Credentials`): the 32-bit ID type, the errno
  constants, the "unchanged" sentinel `0xFFFFFFFF` (the ID whose `(int)` cast
  is -1), the six IDs as a value `Creds`, and the four setters as functions
  from the credentials before a call to its status and the credentials after
  it. The lemmas beside them state the promised rules.
- `groups.dfy` (module `SupplementaryGroups`): `NGROUPS_MAX` and setgroups
  and getgroups as functions on the stored list and the caller's memory.
- `containment.dfy` (module `Containment`): any sequence of setuid, setgid,
  setreuid and setresuid calls by a thread that holds no user ID 0 keeps its
  user and group triples within the IDs they started with. The
  supplementary group list is not covered (see below).
- `thread.dfy` (module `LibosThread`): class `Thread` with the six `uint32`
  fields and the `groups`/`count` pair. Every syscall is a method that takes
  the C code's branches on those fields, including the step-by-step
  `set_suid` flag of setreuid, the copy loop of setgroups into a fresh
  buffer and the copy loop of getgroups. Each setter is proved to leave
  exactly the state the value-level function computes.

Where the code departs from Linux, the model follows the code:

- setuid and setgid decide privilege on the real user ID, not on the
  effective one. For setgid this means a user ID is compared, not a group ID.
- setreuid with only a real ID accepts only the current effective UID.
- A thread whose effective UID is 0 may always call setreuid. The test for
  this is an `if` followed by a separate `if`. The case analysis after it
  only ever sets the status to 0, so it never takes that success away. The
  bypass holds in full (`Credentials.SetReuidRootBypass`, and the
  `Thread.SetReuid` method, which follows the code line by line).
- Not every setter accepts the IDs a thread already has: setuid of the
  effective UID and setgid of the effective GID are refused when that ID is
  neither the real nor the saved one, and a real-root setuid(0) resets the
  effective and saved UIDs (`Credentials.SetUidOfEffectiveMayFail`).
- setgroups makes no privilege test, where Linux requires CAP_SETGID: a
  thread that holds no user ID 0 may install group 0 as a supplementary
  group (`SupplementaryGroups.SetGroupsUnchecked`,
  `LibosThread.UnprivilegedSetGroups`).
- The file has no setresgid, setregid or getresgid syscall. Only the static
  getresgid helper exists, and getgid and getegid use it.

## Model

| member | source | states |
|---|---|---|
| Credentials.SetUid | libos/src/sys/libos_getuid.c:62-80 | setuid returns 0 or -EPERM, and a refused call leaves all six IDs unchanged |
| Credentials.SetGid | libos/src/sys/libos_getuid.c:82-100 | setgid returns 0 or -EPERM, and a refused call leaves all six IDs unchanged |
| Credentials.SetReuid | libos/src/sys/libos_getuid.c:102-144 | setreuid returns 0 or -EPERM, and a refused call leaves all six IDs unchanged |
| Credentials.SetResuid | libos/src/sys/libos_getuid.c:146-176 | setresuid returns 0 or -EPERM, and a refused call leaves all six IDs unchanged |
| Credentials.SetUidAsRoot | libos/src/sys/libos_getuid.c:67-70 | with real UID 0, setuid(id) succeeds and sets real, effective and saved UID to id |
| Credentials.SetUidUnprivileged | libos/src/sys/libos_getuid.c:71-79 | with real UID not 0, setuid(id) succeeds exactly when id is the real or saved UID; success changes only the effective UID; failure is -EPERM with nothing changed |
| Credentials.SetUidKeepsGroups | libos/src/sys/libos_getuid.c:62-80 | setuid never changes the group triple |
| Credentials.SetGidRule | libos/src/sys/libos_getuid.c:86-99 | privilege for setgid is real UID 0, which sets all three group IDs; otherwise id must be the real or saved GID and only the effective GID moves; failure is -EPERM with nothing changed; the user triple never moves |
| Credentials.SetReuidStatus | libos/src/sys/libos_getuid.c:103-122 | the status the code accumulates, with the effective-root test as a separate `if` before the case analysis, is always 0 or -EPERM |
| Credentials.SetReuidRootBypass | libos/src/sys/libos_getuid.c:103-124 | with effective UID 0 the status the code accumulates is 0 for every argument pair, and setreuid succeeds |
| Credentials.SetReuidAuthorization | libos/src/sys/libos_getuid.c:107-124 | setreuid succeeds exactly on the authorisation table: effective root; both IDs in {real, effective}; real alone equal to the effective UID; effective alone in {real, saved}; nothing given. Otherwise -EPERM and nothing changes |
| Credentials.SetReuidUpdate | libos/src/sys/libos_getuid.c:126-139 | an authorised setreuid writes each given ID to its slot; the saved UID becomes the new effective UID when the real UID was given, or when the given effective UID differs from the new real one; otherwise it stays; the group triple stays |
| Credentials.SetReuidSwapExample | libos/src/sys/libos_getuid.c:109-139 | the unprivileged triple (1000, 2000, 1000) with setreuid(2000, 1000) becomes (2000, 1000, 1000) |
| Credentials.SetReuidCurrentIds | libos/src/sys/libos_getuid.c:109-137 | setreuid(real, effective), neither being the sentinel, always succeeds and copies the effective UID into the saved UID |
| Credentials.SetReuidCurrentIdsSentinel | libos/src/sys/libos_getuid.c:109-122 | with real UID 0xFFFFFFFF, the triple (0xFFFFFFFF, 1000, 2000) is refused setreuid(uid, euid) with -EPERM and nothing changed, because the real argument reads as "unchanged" and 1000 is neither the real nor the saved UID |
| Credentials.SetResuidAuthorization | libos/src/sys/libos_getuid.c:151-164 | with effective UID 0 setresuid always succeeds; otherwise it succeeds exactly when every given argument is one of the pre-call user IDs; failure is -EPERM with nothing changed |
| Credentials.SetResuidRoundTrip | libos/src/sys/libos_getuid.c:165-171 | after a successful setresuid each slot holds its given argument, or its old value for the sentinel; the group triple is unchanged |
| Credentials.SetResuidNoOp | libos/src/sys/libos_getuid.c:151-171 | a setresuid whose every argument is the sentinel or the slot's current value succeeds and changes nothing, for any caller |
| Credentials.SetResuidContainmentExample | libos/src/sys/libos_getuid.c:151-155 | the unprivileged triple (1000, 1000, 1000) cannot setresuid(0, -1, -1): -EPERM and nothing changes |
| Credentials.SettersAcceptCurrentIds | libos/src/sys/libos_getuid.c:62-176 | for any caller, setuid of the real UID, setgid of the real GID, setreuid of the real and effective UIDs (neither being the sentinel) and setresuid of the current triple succeed; setresuid then changes nothing |
| Credentials.SetUidOfEffectiveMayFail | libos/src/sys/libos_getuid.c:67-95 | setuid(euid) is refused with nothing changed for (1000, 2000, 1000), setgid(egid) likewise when egid is neither gid nor sgid, and a real-root setuid(0) resets the effective and saved UIDs to 0 |
| Credentials.UnprivilegedSettersStayWithin | libos/src/sys/libos_getuid.c:62-176 | for a caller the code does not treat as privileged, each of setuid, setgid, setreuid and setresuid leaves only IDs the thread already held in the triple it changes |
| Containment.StepContained | libos/src/sys/libos_getuid.c:62-176 | for a thread holding no user ID 0, any one call of setuid, setgid, setreuid or setresuid keeps its user triple and its group triple within the IDs they held |
| Containment.RunContained | libos/src/sys/libos_getuid.c:62-176 | for a thread holding no user ID 0, any sequence of setuid, setgid, setreuid and setresuid calls keeps its user triple and its group triple within the IDs they started with |
| SupplementaryGroups.SetGroups | libos/src/sys/libos_getuid.c:192-224 | setgroups returns 0, -EINVAL, -EFAULT or -ENOMEM, and any failure keeps the stored list |
| SupplementaryGroups.GetGroups | libos/src/sys/libos_getuid.c:226-247 | getgroups never changes the buffer's length, and a failure leaves the buffer untouched |
| SupplementaryGroups.SetGroupsRejectsBadSize | libos/src/sys/libos_getuid.c:193-194 | a negative size or one over 65536 returns -EINVAL and keeps the list |
| SupplementaryGroups.SetGroupsCeiling | libos/src/sys/libos_getuid.c:190-194 | setgroups(65537, list) returns -EINVAL |
| SupplementaryGroups.SetGroupsClears | libos/src/sys/libos_getuid.c:197-202 | size 0 empties the list and returns 0 whatever the pointer and the allocator |
| SupplementaryGroups.SetGroupsFailureKeepsList | libos/src/sys/libos_getuid.c:204-211 | an unreadable list returns -EFAULT, a failed allocation -ENOMEM, and both keep the old list |
| SupplementaryGroups.SetGroupsInstalls | libos/src/sys/libos_getuid.c:207-223 | a successful setgroups stores exactly the first size entries of the input, in order |
| SupplementaryGroups.SetGroupsUnchecked | libos/src/sys/libos_getuid.c:192-223 | setgroups takes no credential into account: a readable [0] is installed and 0 returned whatever list the thread held |
| SupplementaryGroups.SetGroupsBounded | libos/src/sys/libos_getuid.c:190-194 | the stored list never grows past 65536 entries |
| SupplementaryGroups.GetGroupsErrors | libos/src/sys/libos_getuid.c:227-239 | a negative size is -EINVAL; an unwritable buffer is -EFAULT; more groups than size is -EINVAL; none of them writes to the buffer |
| SupplementaryGroups.GetGroupsChecksEmptyBuffer | libos/src/sys/libos_getuid.c:230-236 | the boundary check is made even for size 0; for size 0 a writable buffer gets the count and no write |
| SupplementaryGroups.GetGroupsCopies | libos/src/sys/libos_getuid.c:236-246 | with room for the list, getgroups copies it in order to the front of the buffer, leaves the rest, and returns the count |
| SupplementaryGroups.SetThenGetGroups | libos/src/sys/libos_getuid.c:192-247 | the list a successful setgroups installs is the one getgroups copies back, with its count |
| SupplementaryGroups.ClearThenCount | libos/src/sys/libos_getuid.c:197-246 | after setgroups(0, ...), getgroups(0, buf) returns 0 |
| LibosThread.Thread.Groups | libos/src/sys/libos_getuid.c:234-243 | the stored list has count entries |
| LibosThread.Thread.ReadUserTriple | libos/src/sys/libos_getuid.c:14-24 | the static getresuid helper fills exactly the requested slots with the real, effective and saved UID |
| LibosThread.Thread.ReadGroupTriple | libos/src/sys/libos_getuid.c:26-36 | the static getresgid helper fills exactly the requested slots with the real, effective and saved GID |
| LibosThread.Thread.GetUid | libos/src/sys/libos_getuid.c:38-42 | getuid returns the real UID and changes nothing |
| LibosThread.Thread.GetGid | libos/src/sys/libos_getuid.c:44-48 | getgid returns the real GID and changes nothing |
| LibosThread.Thread.GetEuid | libos/src/sys/libos_getuid.c:50-54 | geteuid returns the effective UID and changes nothing |
| LibosThread.Thread.GetEgid | libos/src/sys/libos_getuid.c:56-60 | getegid returns the effective GID and changes nothing |
| LibosThread.Thread.GetResUid | libos/src/sys/libos_getuid.c:178-188 | getresuid is -EFAULT exactly when some destination fails the boundary check, and then writes nothing; otherwise it writes each non-NULL destination from its field and returns 0 |
| LibosThread.Thread.SetUid | libos/src/sys/libos_getuid.c:62-80 | the in-place setuid returns and leaves what Credentials.SetUid computes; the group list is untouched |
| LibosThread.Thread.SetGid | libos/src/sys/libos_getuid.c:82-100 | the in-place setgid returns and leaves what Credentials.SetGid computes; the group list is untouched |
| LibosThread.Thread.SetReuid | libos/src/sys/libos_getuid.c:102-144 | the in-place setreuid, with its accumulated status and set_suid flag, returns and leaves what Credentials.SetReuid computes |
| LibosThread.Thread.SetResuid | libos/src/sys/libos_getuid.c:146-176 | the in-place setresuid returns and leaves what Credentials.SetResuid computes |
| LibosThread.Thread.SetGroups | libos/src/sys/libos_getuid.c:192-224 | the in-place setgroups, copying into a fresh buffer and swapping it in (on success with size > 0 the installed buffer is freshly allocated), stores and returns what SupplementaryGroups.SetGroups computes; on failure the buffer and count stay; the six IDs stay |
| LibosThread.Thread.GetGroups | libos/src/sys/libos_getuid.c:226-247 | the copy loop of getgroups leaves the caller's memory and returns exactly what SupplementaryGroups.GetGroups computes; the stored list is not modified |
| LibosThread.ResuidRoundTrip | libos/src/sys/libos_getuid.c:146-188 | setresuid then getresuid on one thread reads back the requested triple slot by slot, or reports -EPERM with the triple unchanged |
| LibosThread.UnprivilegedSetGroups | libos/src/sys/libos_getuid.c:192-223 | on a thread holding no user ID 0, setgroups(1, [0]) succeeds and the thread then holds supplementary group 0, with its six IDs unchanged |

## Left out

- `lock`/`unlock` and `get_cur_thread()`: each call takes the thread as an explicit object and is one atomic step. setgroups and getgroups take no lock in the code, and the model does not claim they are locked.
- `is_user_memory_readable`/`is_user_memory_writable`: these boundary checks are boolean parameters. Their answer for NULL or zero-length ranges is left open. A range a check accepts is assumed to hold the requested number of entries.
- `malloc`/`free`: allocation success is a boolean parameter. Releasing the old buffer is not modelled, because it has no observable effect here. NULL for an absent buffer is the null array.
- Copying through raw pointers: the caller's memory is a sequence of IDs. getgroups returns that memory's new contents, and getresuid returns an optional value per destination. Two destinations at the same address, where the C code's later write wins, cannot be expressed.
- Group-ID variants the file does not have (setresgid, setregid, a getresgid syscall), and thread creation, inheritance and teardown.
- The `long`/`int` return types and the `(int)` casts of the ABI: statuses and counts are unbounded integers. The only part of the casts that is modelled is that `0xFFFFFFFF` is the sentinel.
