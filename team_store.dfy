/** The team store (`useTeamStore`): the list of team members, with removal by
    id, appending, status updates and three counters. The member record's type
    is not part of this model beyond its id and status; the rest of it is the
    opaque payload `details`. Status is kept as the string the source compares. */
module TeamStore {
  import opened Seqs

  datatype TeamMember<D> = TeamMember(id: string, status: string, details: D)

  function MemberId<D>(m: TeamMember<D>): string {
    m.id
  }

  function HasStatus<D>(status: string): TeamMember<D> -> bool {
    (m: TeamMember<D>) => m.status == status
  }

  /** `members.map((m) => (m.id === id ? { ...m, status } : m))` */
  function WithStatus<D>(ms: seq<TeamMember<D>>, id: string, status: string): (r: seq<TeamMember<D>>)
    ensures |r| == |ms|
    ensures forall i :: 0 <= i < |ms| ==>
      r[i].id == ms[i].id && r[i].details == ms[i].details
      && r[i].status == (if ms[i].id == id then status else ms[i].status)
    decreases |ms|
  {
    if ms == [] then []
    else [if ms[0].id == id then ms[0].(status := status) else ms[0]] + WithStatus(ms[1..], id, status)
  }

  /** Changing the status of the one member with a given id moves it from
      the count of its old status to the count of its new one. */
  lemma {:induction false} RestatusCount<D>(ms: seq<TeamMember<D>>, i: nat, status: string, s: string)
    requires i < |ms|
    requires forall j :: 0 <= j < |ms| && j != i ==> ms[j].id != ms[i].id
    ensures |Filter(WithStatus(ms, ms[i].id, status), HasStatus(s))| + (if ms[i].status == s then 1 else 0)
         == |Filter(ms, HasStatus(s))| + (if status == s then 1 else 0)
    decreases |ms|
  {
    var id := ms[i].id;
    var keep := HasStatus<D>(s);
    var tail := ms[1..];
    assert ms == [ms[0]] + tail;
    var head := if ms[0].id == id then ms[0].(status := status) else ms[0];
    assert WithStatus(ms, id, status) == [head] + WithStatus(tail, id, status);
    FilterCountCons(head, WithStatus(tail, id, status), keep);
    FilterCountCons(ms[0], tail, keep);
    if i == 0 {
      UnknownIdKeepsStatuses(tail, id, status);
    } else {
      assert tail[i - 1] == ms[i];
      RestatusCount(tail, i - 1, status, s);
    }
  }

  /** Activating the pending member with a unique id: one more active, one fewer pending. */
  lemma ActivateCounts<D>(ms: seq<TeamMember<D>>, i: nat)
    requires i < |ms| && ms[i].status == "pending"
    requires forall j :: 0 <= j < |ms| && j != i ==> ms[j].id != ms[i].id
    ensures |Filter(WithStatus(ms, ms[i].id, "active"), HasStatus("active"))|
         == |Filter(ms, HasStatus("active"))| + 1
    ensures |Filter(WithStatus(ms, ms[i].id, "active"), HasStatus("pending"))|
         == |Filter(ms, HasStatus("pending"))| - 1
  {
    RestatusCount(ms, i, "active", "active");
    RestatusCount(ms, i, "active", "pending");
  }

  lemma UnknownIdKeepsStatuses<D>(ms: seq<TeamMember<D>>, id: string, status: string)
    requires forall j :: 0 <= j < |ms| ==> ms[j].id != id
    ensures WithStatus(ms, id, status) == ms
  {
  }

  class Store<D> {
    var members: seq<TeamMember<D>>

    /** The store starts with the mock team members it is given. */
    constructor (initial: seq<TeamMember<D>>)
      ensures members == initial
    {
      members := initial;
    }

    method RemoveMember(id: string)
      modifies this
      ensures members == WithoutKey(old(members), MemberId, id)
    {
      members := WithoutKey(members, MemberId, id);
    }

    /** Appends the member as given, duplicate id or not. */
    method AddMember(member: TeamMember<D>)
      modifies this
      ensures members == old(members) + [member]
      ensures TotalMembers() == old(TotalMembers()) + 1
    {
      members := members + [member];
    }

    /** The status argument is typed `"active" | "pending"` in the source. */
    method UpdateMemberStatus(id: string, status: string)
      requires status == "active" || status == "pending"
      modifies this
      ensures members == WithStatus(old(members), id, status)
      ensures TotalMembers() == old(TotalMembers())
    {
      members := WithStatus(members, id, status);
    }

    function TotalMembers(): (n: nat)
      reads this
      ensures n == |members|
    {
      |members|
    }

    function ActiveMembers(): (n: nat)
      reads this
      ensures n <= TotalMembers()
    {
      |Filter(members, HasStatus("active"))|
    }

    function PendingMembers(): (n: nat)
      reads this
      ensures n <= TotalMembers()
    {
      |Filter(members, HasStatus("pending"))|
    }

    /** A member is never counted both active and pending. */
    lemma CountsBounded()
      ensures ActiveMembers() + PendingMembers() <= TotalMembers()
    {
      FilterDisjoint(members, HasStatus("active"), HasStatus("pending"));
    }
  }
}
