/** The credential fields of a LibOS thread and the syscalls of
    libos/src/sys/libos_getuid.c that read and update them in place.

    Each setter takes the branches of the C code on the fields themselves
    and is proved to leave exactly the state the value-level rules of
    Credentials and SupplementaryGroups compute.  Each call is one atomic
    step on the thread it is given.
 */
module LibosThread {
  import opened Credentials
  import opened SupplementaryGroups

  /** A destination pointer of getresuid: whether it is NULL, and what the
      boundary check answers for it (unspecified for NULL). */
  datatype UserPtr = UserPtr(isNull: bool, writable: bool)

  class Thread {
    var uid: uint32
    var euid: uint32
    var suid: uint32
    var gid: uint32
    var egid: uint32
    var sgid: uint32

    /** groups_info: the owned buffer (NULL when there is none) and the
        number of valid entries in it. */
    var groups: array?<uint32>
    var count: nat

    ghost predicate Valid()
      reads this
    {
      count <= NGROUPS_MAX &&
      (groups == null ==> count == 0) &&
      (groups != null ==> count <= groups.Length)
    }

    /** The six IDs as one value. */
    function Snapshot(): Creds
      reads this
    {
      Creds(uid, euid, suid, gid, egid, sgid)
    }

    /** The supplementary group list the thread holds. */
    ghost function Groups(): (s: seq<uint32>)
      reads this, groups
      requires Valid()
      ensures |s| == count
    {
      if groups == null then [] else groups[..count]
    }

    /** A thread with the given credentials and no supplementary groups. */
    constructor (c: Creds)
      ensures Valid() && Snapshot() == c && Groups() == []
    {
      uid, euid, suid := c.uid, c.euid, c.suid;
      gid, egid, sgid := c.gid, c.egid, c.sgid;
      groups, count := null, 0;
    }

    // -------------------------------------------------------------------
    // Readers

    /** The static getresuid helper: fills the requested (non-NULL) slots. */
    method ReadUserTriple(wantR: bool, wantE: bool, wantS: bool)
      returns (r: Option<uint32>, e: Option<uint32>, s: Option<uint32>)
      ensures r == (if wantR then Some(uid) else None)
      ensures e == (if wantE then Some(euid) else None)
      ensures s == (if wantS then Some(suid) else None)
    {
      r, e, s := None, None, None;
      if wantR { r := Some(uid); }
      if wantE { e := Some(euid); }
      if wantS { s := Some(suid); }
    }

    /** The static getresgid helper. */
    method ReadGroupTriple(wantR: bool, wantE: bool, wantS: bool)
      returns (r: Option<uint32>, e: Option<uint32>, s: Option<uint32>)
      ensures r == (if wantR then Some(gid) else None)
      ensures e == (if wantE then Some(egid) else None)
      ensures s == (if wantS then Some(sgid) else None)
    {
      r, e, s := None, None, None;
      if wantR { r := Some(gid); }
      if wantE { e := Some(egid); }
      if wantS { s := Some(sgid); }
    }

    method GetUid() returns (id: uint32)
      ensures id == uid
    {
      var r, _, _ := ReadUserTriple(true, false, false);
      id := r.value;
    }

    method GetGid() returns (id: uint32)
      ensures id == gid
    {
      var r, _, _ := ReadGroupTriple(true, false, false);
      id := r.value;
    }

    method GetEuid() returns (id: uint32)
      ensures id == euid
    {
      var _, e, _ := ReadUserTriple(false, true, false);
      id := e.value;
    }

    method GetEgid() returns (id: uint32)
      ensures id == egid
    {
      var _, e, _ := ReadGroupTriple(false, true, false);
      id := e.value;
    }

    /** getresuid: every destination must pass the boundary check, NULL or
        not; then each non-NULL one receives its field. */
    method GetResUid(rp: UserPtr, ep: UserPtr, sp: UserPtr)
      returns (ret: int, r: Option<uint32>, e: Option<uint32>, s: Option<uint32>)
      ensures ret == 0 || ret == -EFAULT
      ensures ret == -EFAULT <==> !(rp.writable && ep.writable && sp.writable)
      ensures ret == -EFAULT ==> r == None && e == None && s == None
      ensures ret == 0 ==> r == (if rp.isNull then None else Some(uid))
      ensures ret == 0 ==> e == (if ep.isNull then None else Some(euid))
      ensures ret == 0 ==> s == (if sp.isNull then None else Some(suid))
    {
      if !rp.writable || !ep.writable || !sp.writable {
        return -EFAULT, None, None, None;
      }
      r, e, s := ReadUserTriple(!rp.isNull, !ep.isNull, !sp.isNull);
      ret := 0;
    }

    // -------------------------------------------------------------------
    // Setters

    method SetUid(id: uint32) returns (ret: int)
      requires Valid()
      modifies this
      ensures Valid()
      ensures ret == Credentials.SetUid(old(Snapshot()), id).ret
      ensures Snapshot() == Credentials.SetUid(old(Snapshot()), id).after
      ensures groups == old(groups) && count == old(count)
    {
      if uid == 0 {
        uid := id;
        suid := id;
      } else if id != uid && id != suid {
        return -EPERM;
      }
      euid := id;
      ret := 0;
    }

    method SetGid(id: uint32) returns (ret: int)
      requires Valid()
      modifies this
      ensures Valid()
      ensures ret == Credentials.SetGid(old(Snapshot()), id).ret
      ensures Snapshot() == Credentials.SetGid(old(Snapshot()), id).after
      ensures groups == old(groups) && count == old(count)
    {
      if uid == 0 {
        gid := id;
        sgid := id;
      } else if id != gid && id != sgid {
        return -EPERM;
      }
      egid := id;
      ret := 0;
    }

    method SetReuid(ruid: uint32, euid': uint32) returns (ret: int)
      requires Valid()
      modifies this
      ensures Valid()
      ensures ret == Credentials.SetReuid(old(Snapshot()), ruid, euid').ret
      ensures Snapshot() == Credentials.SetReuid(old(Snapshot()), ruid, euid').after
      ensures groups == old(groups) && count == old(count)
    {
      ret := -EPERM;
      if euid == 0 {
        ret := 0;
      }
      if Given(ruid) && Given(euid') {
        if (ruid == uid || ruid == euid) && (euid' == uid || euid' == euid) {
          ret := 0;
        }
      } else if Given(ruid) {
        if ruid == euid {
          ret := 0;
        }
      } else if Given(euid') {
        if euid' == uid || euid' == suid {
          ret := 0;
        }
      } else if !Given(euid') && !Given(ruid) {
        ret := 0;
      }
      if ret != 0 {
        return;
      }

      var setSuid := false;
      if Given(ruid) {
        uid := ruid;
        setSuid := true;
      }
      if Given(euid') {
        if uid != euid' {
          setSuid := true;
        }
        euid := euid';
      }
      if setSuid {
        suid := euid;
      }
      ret := 0;
    }

    method SetResuid(ruid: uint32, euid': uint32, suid': uint32) returns (ret: int)
      requires Valid()
      modifies this
      ensures Valid()
      ensures ret == Credentials.SetResuid(old(Snapshot()), ruid, euid', suid').ret
      ensures Snapshot() == Credentials.SetResuid(old(Snapshot()), ruid, euid', suid').after
      ensures groups == old(groups) && count == old(count)
    {
      if euid != 0 {
        ret := -EPERM;
        if Given(ruid) && ruid != uid && ruid != euid && ruid != suid {
          return;
        }
        if Given(euid') && euid' != uid && euid' != euid && euid' != suid {
          return;
        }
        if Given(suid') && suid' != uid && suid' != euid && suid' != suid {
          return;
        }
      }
      if Given(ruid) {
        uid := ruid;
      }
      if Given(euid') {
        euid := euid';
      }
      if Given(suid') {
        suid := suid';
      }
      ret := 0;
    }

    // -------------------------------------------------------------------
    // Supplementary groups

    /** setgroups: `list` is the caller's memory at the pointer, `readable`
        the boundary check's answer for `size` entries of it, `allocates`
        whether the allocator returns a buffer. */
    method SetGroups(size: int32, list: seq<uint32>, readable: bool, allocates: bool)
      returns (ret: int)
      requires Valid()
      requires 0 < size as int <= NGROUPS_MAX && readable ==> size as int <= |list|
      modifies this
      ensures Valid()
      ensures ret == SupplementaryGroups.SetGroups(old(Groups()), size, list, readable, allocates).ret
      ensures Groups() == SupplementaryGroups.SetGroups(old(Groups()), size, list, readable, allocates).groups
      ensures ret != 0 ==> groups == old(groups) && count == old(count)
      ensures ret == 0 && size > 0 ==> fresh(groups)
      ensures Snapshot() == old(Snapshot())
    {
      if size < 0 || size as int > NGROUPS_MAX {
        return -EINVAL;
      }
      if size == 0 {
        groups := null;
        count := 0;
        return 0;
      }
      if !readable {
        return -EFAULT;
      }
      if !allocates {
        return -ENOMEM;
      }
      var n := size as int;
      var buffer := new uint32[n];
      var i := 0;
      while i < n
        invariant 0 <= i <= n
        invariant buffer[..i] == list[..i]
        modifies buffer
      {
        buffer[i] := list[i];
        i := i + 1;
      }
      count := n;
      groups := buffer;
      assert groups[..count] == list[..size];
      ret := 0;
    }

    /** getgroups: `buffer` is the caller's memory at the pointer, `writable`
        the boundary check's answer for `size` entries of it; the method
        returns what that memory holds afterwards. */
    method GetGroups(size: int32, buffer: seq<uint32>, writable: bool)
      returns (ret: int, written: seq<uint32>)
      requires Valid()
      requires 0 < size && writable ==> size as int <= |buffer|
      ensures ret == SupplementaryGroups.GetGroups(Groups(), size, buffer, writable).ret
      ensures written == SupplementaryGroups.GetGroups(Groups(), size, buffer, writable).buffer
    {
      if size < 0 {
        return -EINVAL, buffer;
      }
      if !writable {
        return -EFAULT, buffer;
      }
      written := buffer;
      if size != 0 {
        if count > size as int {
          return -EINVAL, buffer;
        }
        var i := 0;
        while i < count
          invariant 0 <= i <= count
          invariant |written| == |buffer|
          invariant written[..i] == Groups()[..i]
          invariant written[i..] == buffer[i..]
        {
          written := written[i := groups[i]];
          i := i + 1;
        }
      }
      ret := count;
    }
  }

  /** setresuid followed by getresuid, on a thread: the triple read back is
      the one the call asked for, slot by slot. */
  method ResuidRoundTrip(t: Thread, ruid: uint32, euid: uint32, suid: uint32)
    returns (ret: int, r: Option<uint32>, e: Option<uint32>, s: Option<uint32>)
    requires t.Valid()
    modifies t
    ensures ret == 0 ==> r == Some(if Given(ruid) then ruid else old(t.uid))
    ensures ret == 0 ==> e == Some(if Given(euid) then euid else old(t.euid))
    ensures ret == 0 ==> s == Some(if Given(suid) then suid else old(t.suid))
    ensures ret != 0 ==> ret == -EPERM && t.Snapshot() == old(t.Snapshot())
  {
    ret := t.SetResuid(ruid, euid, suid);
    var p := UserPtr(false, true);
    var _, r', e', s' := t.GetResUid(p, p, p);
    r, e, s := r', e', s';
  }

  /** A thread that holds no user ID 0 may still install group 0 as a
      supplementary group: setgroups makes no privilege test. */
  method UnprivilegedSetGroups(t: Thread) returns (ret: int)
    requires t.Valid() && 0 !in t.Snapshot().UserIds()
    modifies t
    ensures ret == 0 && t.Valid() && t.Groups() == [0]
    ensures t.Snapshot() == old(t.Snapshot())
  {
    ret := t.SetGroups(1, [0], true, true);
  }
}
