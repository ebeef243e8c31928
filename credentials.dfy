/** The identity rules of libos/src/sys/libos_getuid.c, stated on values.

    A thread's credentials are six 32-bit IDs: the user triple (real,
    effective and saved user ID) and the group triple.  Each setter is a
    function from the credentials before the call to the status it returns
    and the credentials after it; the class in thread.dfy performs the same
    steps in place and is proved to agree with these functions.  The lemmas
    below state what the setters promise.
 */
module Credentials {

  /** uid_t and gid_t: unsigned 32-bit integers. */
  newtype uint32 = x: int | 0 <= x < 0x1_0000_0000

  /** The C `int` used for the size argument of setgroups and getgroups. */
  newtype int32 = x: int | -0x8000_0000 <= x < 0x8000_0000

  /** Linux errno values; the syscalls return their negation. */
  const EPERM: int := 1
  const ENOMEM: int := 12
  const EFAULT: int := 14
  const EINVAL: int := 22

  /** The ID whose `(int)` cast is -1: "leave this component unchanged". */
  const UNCHANGED: uint32 := 0xFFFF_FFFF

  /** An ID argument that asks for a change, i.e. `(int)id != -1`. */
  predicate Given(id: uint32) {
    id != UNCHANGED
  }

  datatype Option<T> = None | Some(value: T)

  datatype Creds = Creds(uid: uint32, euid: uint32, suid: uint32,
                         gid: uint32, egid: uint32, sgid: uint32)
  {
    /** The user IDs this thread holds in any of its three slots. */
    function UserIds(): set<uint32> {
      {uid, euid, suid}
    }

    /** The group IDs this thread holds in any of its three slots. */
    function GroupIds(): set<uint32> {
      {gid, egid, sgid}
    }

    /** True when the user triple of `that` is the one of this. */
    predicate SameUsers(that: Creds) {
      uid == that.uid && euid == that.euid && suid == that.suid
    }

    /** True when the group triple of `that` is the one of this. */
    predicate SameGroups(that: Creds) {
      gid == that.gid && egid == that.egid && sgid == that.sgid
    }
  }

  /** What a setter returns (0 or a negative errno) and the credentials it leaves. */
  datatype Outcome = Outcome(ret: int, after: Creds)

  // ---------------------------------------------------------------------
  // The setters, branch by branch as the C code takes them

  /** setuid: a thread whose real UID is 0 sets all three user IDs; any other
      thread may only move its effective UID to its real or saved UID. */
  function SetUid(c: Creds, id: uint32): (o: Outcome)
    ensures o.ret == 0 || o.ret == -EPERM
    ensures o.ret != 0 ==> o.after == c
  {
    if c.uid == 0 then
      Outcome(0, c.(uid := id, suid := id, euid := id))
    else if id != c.uid && id != c.suid then
      Outcome(-EPERM, c)
    else
      Outcome(0, c.(euid := id))
  }

  /** setgid: the same shape as setuid on the group triple, but the privilege
      test is on the real USER ID, as the code writes it. */
  function SetGid(c: Creds, id: uint32): (o: Outcome)
    ensures o.ret == 0 || o.ret == -EPERM
    ensures o.ret != 0 ==> o.after == c
  {
    if c.uid == 0 then
      Outcome(0, c.(gid := id, sgid := id, egid := id))
    else if id != c.gid && id != c.sgid then
      Outcome(-EPERM, c)
    else
      Outcome(0, c.(egid := id))
  }

  /** The status setreuid decides on, accumulated as the code does: `ret`
      starts at -EPERM, the effective-root test sets it to 0, and the case
      analysis that follows (a separate `if`, not an `else if`) can only set
      it to 0 again. */
  function SetReuidStatus(c: Creds, ruid: uint32, euid: uint32): (r: int)
    ensures r == 0 || r == -EPERM
  {
    var ret := if c.euid == 0 then 0 else -EPERM;
    if Given(ruid) && Given(euid) then
      if (ruid == c.uid || ruid == c.euid) && (euid == c.uid || euid == c.euid) then 0 else ret
    else if Given(ruid) then
      if ruid == c.euid then 0 else ret
    else if Given(euid) then
      if euid == c.uid || euid == c.suid then 0 else ret
    else if !Given(euid) && !Given(ruid) then
      0
    else
      ret
  }

  /** setreuid: on success the real UID is written first, then the effective
      UID, and the saved UID follows the new effective UID when the real UID
      was written or the requested effective UID differs from the real UID
      as it stands after the first write. */
  function SetReuid(c: Creds, ruid: uint32, euid: uint32): (o: Outcome)
    ensures o.ret == 0 || o.ret == -EPERM
    ensures o.ret != 0 ==> o.after == c
  {
    if SetReuidStatus(c, ruid, euid) != 0 then
      Outcome(-EPERM, c)
    else
      var uid1 := if Given(ruid) then ruid else c.uid;
      var setSuid := Given(ruid) || (Given(euid) && uid1 != euid);
      var euid1 := if Given(euid) then euid else c.euid;
      Outcome(0, c.(uid := uid1, euid := euid1, suid := if setSuid then euid1 else c.suid))
  }

  /** setresuid: each given argument replaces its slot; an unprivileged
      caller may only pick IDs from its pre-call triple. */
  function SetResuid(c: Creds, ruid: uint32, euid: uint32, suid: uint32): (o: Outcome)
    ensures o.ret == 0 || o.ret == -EPERM
    ensures o.ret != 0 ==> o.after == c
  {
    if c.euid != 0 &&
       !((!Given(ruid) || ruid in c.UserIds()) &&
         (!Given(euid) || euid in c.UserIds()) &&
         (!Given(suid) || suid in c.UserIds())) then
      Outcome(-EPERM, c)
    else
      Outcome(0, c.(uid := if Given(ruid) then ruid else c.uid,
                    euid := if Given(euid) then euid else c.euid,
                    suid := if Given(suid) then suid else c.suid))
  }

  // ---------------------------------------------------------------------
  // setuid

  lemma SetUidAsRoot(c: Creds, id: uint32)
    requires c.uid == 0
    ensures SetUid(c, id).ret == 0
    ensures SetUid(c, id).after == c.(uid := id, euid := id, suid := id)
  {
  }

  lemma SetUidUnprivileged(c: Creds, id: uint32)
    requires c.uid != 0
    ensures SetUid(c, id).ret == 0 <==> id == c.uid || id == c.suid
    ensures SetUid(c, id).ret == 0 ==> SetUid(c, id).after == c.(euid := id)
    ensures SetUid(c, id).ret != 0 ==> SetUid(c, id).ret == -EPERM && SetUid(c, id).after == c
  {
  }

  lemma SetUidKeepsGroups(c: Creds, id: uint32)
    ensures SetUid(c, id).after.SameGroups(c)
  {
  }

  // ---------------------------------------------------------------------
  // setgid

  /** Privilege for setgid is the real user ID being 0; the user triple never moves. */
  lemma SetGidRule(c: Creds, id: uint32)
    ensures SetGid(c, id).after.SameUsers(c)
    ensures c.uid == 0 ==> SetGid(c, id) == Outcome(0, c.(gid := id, egid := id, sgid := id))
    ensures c.uid != 0 ==> (SetGid(c, id).ret == 0 <==> id == c.gid || id == c.sgid)
    ensures c.uid != 0 && SetGid(c, id).ret == 0 ==> SetGid(c, id).after == c.(egid := id)
    ensures SetGid(c, id).ret != 0 ==> SetGid(c, id).ret == -EPERM && SetGid(c, id).after == c
  {
  }

  // ---------------------------------------------------------------------
  // setreuid

  /** The authorisation table of setreuid, one case per combination of
      given and unchanged arguments. */
  predicate ReuidAuthorized(c: Creds, ruid: uint32, euid: uint32) {
    if c.euid == 0 then true
    else if Given(ruid) && Given(euid) then
      ruid in {c.uid, c.euid} && euid in {c.uid, c.euid}
    else if Given(ruid) then ruid == c.euid
    else if Given(euid) then euid in {c.uid, c.suid}
    else true
  }

  /** The effective-root bypass survives the case analysis that follows it. */
  lemma SetReuidRootBypass(c: Creds, ruid: uint32, euid: uint32)
    requires c.euid == 0
    ensures SetReuidStatus(c, ruid, euid) == 0
    ensures SetReuid(c, ruid, euid).ret == 0
  {
  }

  /** The status the code accumulates succeeds exactly on the authorisation
      table; a refused call returns -EPERM and changes nothing. */
  lemma SetReuidAuthorization(c: Creds, ruid: uint32, euid: uint32)
    ensures SetReuid(c, ruid, euid).ret == 0 <==> ReuidAuthorized(c, ruid, euid)
    ensures !ReuidAuthorized(c, ruid, euid) ==>
              SetReuid(c, ruid, euid) == Outcome(-EPERM, c)
  {
  }

  /** What an authorised setreuid writes; the group triple is never touched. */
  lemma SetReuidUpdate(c: Creds, ruid: uint32, euid: uint32)
    requires ReuidAuthorized(c, ruid, euid)
    ensures var a := SetReuid(c, ruid, euid).after;
      a.uid == (if Given(ruid) then ruid else c.uid) &&
      a.euid == (if Given(euid) then euid else c.euid) &&
      (Given(ruid) || (Given(euid) && a.euid != a.uid) ==> a.suid == a.euid) &&
      (!Given(ruid) && !(Given(euid) && a.euid != a.uid) ==> a.suid == c.suid) &&
      a.SameGroups(c)
  {
  }

  /** An unprivileged thread (1000, 2000, 1000) swaps its real and effective UIDs. */
  lemma SetReuidSwapExample()
    ensures var c := Creds(1000, 2000, 1000, 100, 100, 100);
      SetReuid(c, 2000, 1000) == Outcome(0, Creds(2000, 1000, 1000, 100, 100, 100))
  {
  }

  /** Re-asserting the current real and effective UIDs is allowed unless one
      of them is the sentinel (which reads as "unchanged"), and it copies the
      effective UID into the saved UID. */
  lemma SetReuidCurrentIds(c: Creds)
    requires Given(c.uid) && Given(c.euid)
    ensures SetReuid(c, c.uid, c.euid) == Outcome(0, c.(suid := c.euid))
  {
  }

  /** With the sentinel as real UID, setreuid(uid, euid) reads as "effective
      only", so it needs the effective UID to be the real or saved one. */
  lemma SetReuidCurrentIdsSentinel()
    ensures var c := Creds(UNCHANGED, 1000, 2000, 100, 100, 100);
      SetReuid(c, c.uid, c.euid) == Outcome(-EPERM, c)
  {
  }

  // ---------------------------------------------------------------------
  // setresuid

  lemma SetResuidAuthorization(c: Creds, ruid: uint32, euid: uint32, suid: uint32)
    ensures c.euid == 0 ==> SetResuid(c, ruid, euid, suid).ret == 0
    ensures c.euid != 0 ==>
              (SetResuid(c, ruid, euid, suid).ret == 0 <==>
                 (Given(ruid) ==> ruid in c.UserIds()) &&
                 (Given(euid) ==> euid in c.UserIds()) &&
                 (Given(suid) ==> suid in c.UserIds()))
    ensures SetResuid(c, ruid, euid, suid).ret != 0 ==>
              SetResuid(c, ruid, euid, suid) == Outcome(-EPERM, c)
  {
  }

  /** After a successful setresuid, getresuid reads back exactly the given
      arguments, and the old value in every unchanged slot. */
  lemma SetResuidRoundTrip(c: Creds, ruid: uint32, euid: uint32, suid: uint32)
    requires SetResuid(c, ruid, euid, suid).ret == 0
    ensures var a := SetResuid(c, ruid, euid, suid).after;
      (Given(ruid) ==> a.uid == ruid) && (!Given(ruid) ==> a.uid == c.uid) &&
      (Given(euid) ==> a.euid == euid) && (!Given(euid) ==> a.euid == c.euid) &&
      (Given(suid) ==> a.suid == suid) && (!Given(suid) ==> a.suid == c.suid) &&
      a.SameGroups(c)
  {
  }

  /** A call whose every argument is the sentinel or the slot's current
      value succeeds and changes nothing, whatever the caller's privilege. */
  lemma SetResuidNoOp(c: Creds, ruid: uint32, euid: uint32, suid: uint32)
    requires !Given(ruid) || ruid == c.uid
    requires !Given(euid) || euid == c.euid
    requires !Given(suid) || suid == c.suid
    ensures SetResuid(c, ruid, euid, suid) == Outcome(0, c)
  {
  }

  /** A thread (1000, 1000, 1000) cannot make itself root. */
  lemma SetResuidContainmentExample()
    ensures var c := Creds(1000, 1000, 1000, 100, 100, 100);
      SetResuid(c, 0, UNCHANGED, UNCHANGED) == Outcome(-EPERM, c)
  {
  }

  // ---------------------------------------------------------------------
  // Across the setters

  /** setuid of the real UID, setgid of the real GID, setreuid of the real
      and effective UIDs (as long as neither is the sentinel, which would
      read as "unchanged") and setresuid of the whole triple always succeed,
      whatever the privilege; only the last is sure to change nothing. */
  lemma SettersAcceptCurrentIds(c: Creds)
    ensures SetUid(c, c.uid).ret == 0
    ensures SetGid(c, c.gid).ret == 0
    ensures Given(c.uid) && Given(c.euid) ==> SetReuid(c, c.uid, c.euid).ret == 0
    ensures SetResuid(c, c.uid, c.euid, c.suid) == Outcome(0, c)
  {
  }

  /** Re-asserting the effective ID is not always accepted: an unprivileged
      thread whose effective UID is neither its real nor its saved UID is
      refused setuid(euid), and likewise setgid(egid) for the group triple.
      A thread with real UID 0 may setuid(0), but that is no no-op: it also
      resets the effective and saved UIDs. */
  lemma SetUidOfEffectiveMayFail()
    ensures var c := Creds(1000, 2000, 1000, 100, 100, 100);
      SetUid(c, c.euid) == Outcome(-EPERM, c)
    ensures var c := Creds(1000, 1000, 1000, 100, 200, 100);
      SetGid(c, c.egid) == Outcome(-EPERM, c)
    ensures var c := Creds(0, 1000, 1000, 100, 100, 100);
      SetUid(c, c.uid) == Outcome(0, Creds(0, 0, 0, 100, 100, 100))
  {
  }

  /** A call of setuid, setgid, setreuid or setresuid by a caller the code
      does not treat as privileged leaves in the triple it changes only IDs
      that triple already held. */
  lemma UnprivilegedSettersStayWithin(c: Creds, r: uint32, e: uint32, s: uint32)
    ensures c.uid != 0 ==> SetUid(c, r).after.UserIds() <= c.UserIds()
    ensures c.uid != 0 ==> SetGid(c, r).after.GroupIds() <= c.GroupIds()
    ensures c.euid != 0 ==> SetReuid(c, r, e).after.UserIds() <= c.UserIds()
    ensures c.euid != 0 ==> SetResuid(c, r, e, s).after.UserIds() <= c.UserIds()
  {
  }
}
