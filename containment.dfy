/** Privilege containment over any sequence of identity changes.

    A thread none of whose user IDs is 0 is never treated as privileged by
    setuid, setgid, setreuid or setresuid, so any sequence of those calls
    keeps its user triple and its group triple within the IDs they held to
    begin with.  setgroups is not among them: it makes no privilege test and
    may install any supplementary group list.
 */
module Containment {
  import opened Credentials

  /** One identity-changing syscall with its arguments. */
  datatype Call =
    | SetUidCall(id: uint32)
    | SetGidCall(id: uint32)
    | SetReuidCall(ruid: uint32, euid: uint32)
    | SetResuidCall(ruid: uint32, euid: uint32, suid: uint32)

  function Apply(c: Creds, call: Call): Outcome {
    match call
    case SetUidCall(id) => SetUid(c, id)
    case SetGidCall(id) => SetGid(c, id)
    case SetReuidCall(r, e) => SetReuid(c, r, e)
    case SetResuidCall(r, e, s) => SetResuid(c, r, e, s)
  }

  /** The credentials after making the calls one after another, whatever each returned. */
  function Run(c: Creds, calls: seq<Call>): Creds
    decreases |calls|
  {
    if calls == [] then c else Run(Apply(c, calls[0]).after, calls[1..])
  }

  /** One call of an ID setter keeps both triples within the IDs they held. */
  lemma StepContained(c: Creds, call: Call)
    requires 0 !in c.UserIds()
    ensures Apply(c, call).after.UserIds() <= c.UserIds()
    ensures Apply(c, call).after.GroupIds() <= c.GroupIds()
  {
  }

  /** No sequence of ID-setter calls lets an unprivileged thread reach a new
      user ID, or a new group ID in its group triple. */
  lemma {:induction false} RunContained(c: Creds, calls: seq<Call>)
    requires 0 !in c.UserIds()
    ensures Run(c, calls).UserIds() <= c.UserIds()
    ensures Run(c, calls).GroupIds() <= c.GroupIds()
    decreases |calls|
  {
    if calls != [] {
      var next := Apply(c, calls[0]).after;
      StepContained(c, calls[0]);
      RunContained(next, calls[1..]);
    }
  }
}
