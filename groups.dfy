/** The supplementary group list of libos/src/sys/libos_getuid.c, stated on values.

    The caller's memory is a sequence of IDs; whether the boundary check
    accepts the range is a boolean the caller of the model supplies, and so
    is whether the allocator hands out a new buffer.  A boundary check that
    accepts a range promises that the range holds at least as many entries
    as were asked for: that is the only requirement on those booleans.
 */
module SupplementaryGroups {
  import opened Credentials

  /** The most supplementary group IDs a thread may hold, as on the host OS. */
  const NGROUPS_MAX: int := 65536

  /** What setgroups returns and the group list the thread holds afterwards. */
  datatype SetOutcome = SetOutcome(ret: int, groups: seq<uint32>)

  /** What getgroups returns and what the caller's buffer holds afterwards. */
  datatype GetOutcome = GetOutcome(ret: int, buffer: seq<uint32>)

  /** setgroups(size, list) on a thread holding `stored`. */
  function SetGroups(stored: seq<uint32>, size: int32, list: seq<uint32>,
                     readable: bool, allocates: bool): (o: SetOutcome)
    requires 0 < size as int <= NGROUPS_MAX && readable ==> size as int <= |list|
    ensures o.ret in {0, -EINVAL, -EFAULT, -ENOMEM}
    ensures o.ret != 0 ==> o.groups == stored
  {
    if size < 0 || size as int > NGROUPS_MAX then SetOutcome(-EINVAL, stored)
    else if size == 0 then SetOutcome(0, [])
    else if !readable then SetOutcome(-EFAULT, stored)
    else if !allocates then SetOutcome(-ENOMEM, stored)
    else SetOutcome(0, list[..size])
  }

  /** getgroups(size, buffer) on a thread holding `stored`. */
  function GetGroups(stored: seq<uint32>, size: int32, buffer: seq<uint32>,
                     writable: bool): (o: GetOutcome)
    requires 0 < size && writable ==> size as int <= |buffer|
    ensures |o.buffer| == |buffer|
    ensures o.ret < 0 ==> o.buffer == buffer
  {
    if size < 0 then GetOutcome(-EINVAL, buffer)
    else if !writable then GetOutcome(-EFAULT, buffer)
    else if size == 0 then GetOutcome(|stored|, buffer)
    else if |stored| > size as int then GetOutcome(-EINVAL, buffer)
    else GetOutcome(|stored|, stored + buffer[|stored|..])
  }

  // ---------------------------------------------------------------------
  // setgroups

  lemma SetGroupsRejectsBadSize(stored: seq<uint32>, size: int32, list: seq<uint32>,
                                readable: bool, allocates: bool)
    requires size < 0 || size as int > NGROUPS_MAX
    ensures SetGroups(stored, size, list, readable, allocates) == SetOutcome(-EINVAL, stored)
  {
  }

  /** The ceiling is enforced: one entry over it is refused whatever the list. */
  lemma SetGroupsCeiling(stored: seq<uint32>, list: seq<uint32>, readable: bool, allocates: bool)
    ensures SetGroups(stored, 65537, list, readable, allocates).ret == -EINVAL
  {
  }

  /** A size of 0 empties the list without looking at the caller's memory. */
  lemma SetGroupsClears(stored: seq<uint32>, list: seq<uint32>, readable: bool, allocates: bool)
    ensures SetGroups(stored, 0, list, readable, allocates) == SetOutcome(0, [])
  {
  }

  /** An unreadable list or a failed allocation keeps the old list. */
  lemma SetGroupsFailureKeepsList(stored: seq<uint32>, size: int32, list: seq<uint32>,
                                  readable: bool, allocates: bool)
    requires 0 < size as int <= NGROUPS_MAX
    requires readable ==> size as int <= |list|
    ensures !readable ==> SetGroups(stored, size, list, readable, allocates) == SetOutcome(-EFAULT, stored)
    ensures readable && !allocates ==>
              SetGroups(stored, size, list, readable, allocates) == SetOutcome(-ENOMEM, stored)
  {
  }

  /** On success the stored list is the first `size` entries of the input, in order. */
  lemma SetGroupsInstalls(stored: seq<uint32>, size: int32, list: seq<uint32>)
    requires 0 < size as int <= NGROUPS_MAX && size as int <= |list|
    ensures var o := SetGroups(stored, size, list, true, true);
      o.ret == 0 && |o.groups| == size as int &&
      forall i :: 0 <= i < size as int ==> o.groups[i] == list[i]
  {
  }

  /** setgroups never stores more than the ceiling. */
  lemma SetGroupsBounded(stored: seq<uint32>, size: int32, list: seq<uint32>,
                         readable: bool, allocates: bool)
    requires |stored| <= NGROUPS_MAX
    requires 0 < size as int <= NGROUPS_MAX && readable ==> size as int <= |list|
    ensures |SetGroups(stored, size, list, readable, allocates).groups| <= NGROUPS_MAX
  {
  }

  /** setgroups consults no credential: whatever the thread holds, a
      readable one-entry list [0] is installed as given. */
  lemma SetGroupsUnchecked(stored: seq<uint32>)
    ensures SetGroups(stored, 1, [0], true, true) == SetOutcome(0, [0])
  {
  }

  // ---------------------------------------------------------------------
  // getgroups

  lemma GetGroupsErrors(stored: seq<uint32>, size: int32, buffer: seq<uint32>, writable: bool)
    requires 0 < size && writable ==> size as int <= |buffer|
    ensures size < 0 ==> GetGroups(stored, size, buffer, writable) == GetOutcome(-EINVAL, buffer)
    ensures 0 <= size && !writable ==> GetGroups(stored, size, buffer, writable) == GetOutcome(-EFAULT, buffer)
    ensures 0 < size && writable && |stored| > size as int ==>
              GetGroups(stored, size, buffer, writable) == GetOutcome(-EINVAL, buffer)
  {
  }

  /** The boundary check comes first: it is made even when size is 0. */
  lemma GetGroupsChecksEmptyBuffer(stored: seq<uint32>, buffer: seq<uint32>)
    ensures GetGroups(stored, 0, buffer, false).ret == -EFAULT
    ensures GetGroups(stored, 0, buffer, true) == GetOutcome(|stored|, buffer)
  {
  }

  /** With room for the whole list, the list is copied to the front of the
      buffer in order, the rest of the buffer is left alone, and the count
      is returned. */
  lemma GetGroupsCopies(stored: seq<uint32>, size: int32, buffer: seq<uint32>)
    requires 0 < size as int <= |buffer| && |stored| <= size as int
    ensures var o := GetGroups(stored, size, buffer, true);
      o.ret == |stored| &&
      (forall i :: 0 <= i < |stored| ==> o.buffer[i] == stored[i]) &&
      (forall i :: |stored| <= i < |buffer| ==> o.buffer[i] == buffer[i])
  {
  }

  // ---------------------------------------------------------------------
  // The two together

  /** The list installed by setgroups is the one getgroups reads back. */
  lemma SetThenGetGroups(stored: seq<uint32>, size: int32, list: seq<uint32>,
                         room: int32, buffer: seq<uint32>)
    requires 0 < size as int <= NGROUPS_MAX && size as int <= |list|
    requires size <= room && room as int <= |buffer|
    ensures var s := SetGroups(stored, size, list, true, true);
      var g := GetGroups(s.groups, room, buffer, true);
      g.ret == size as int && g.buffer[..size] == list[..size] && g.buffer[size..] == buffer[size..]
  {
  }

  /** After clearing, getgroups(0, buf) reports no groups. */
  lemma ClearThenCount(stored: seq<uint32>, list: seq<uint32>, buffer: seq<uint32>)
    ensures GetGroups(SetGroups(stored, 0, list, false, false).groups, 0, buffer, true).ret == 0
  {
  }
}
