/** The "My Splits" page: aggregate counts over the committed splits, the
    per-split member count and two-member preview, and the Deactivate action,
    which is offered only for active splits. */
module UserSplits {
  import opened Wrappers
  import opened Types
  import opened Seqs
  import opened SplitStore
  import Text
  import Ints
  import SplitDetailDrawer

  function IsActive(s: Split): bool { s.status == Active }

  function IsInactive(s: Split): bool { s.status == Inactive }

  /** `splits.filter((s) => s.status === "active").length` */
  function ActiveCount(ss: seq<Split>): (n: nat)
    ensures n <= |ss|
  {
    |Filter(ss, IsActive)|
  }

  /** `splits.filter((s) => s.status === "inactive").length` */
  function InactiveCount(ss: seq<Split>): (n: nat)
    ensures n <= |ss|
  {
    |Filter(ss, IsInactive)|
  }

  /** The two stat cards count every split exactly once. */
  lemma ActivePlusInactive(ss: seq<Split>)
    ensures ActiveCount(ss) + InactiveCount(ss) == |ss|
  {
    FilterPartition(ss, IsActive, IsInactive);
  }

  /** "Total Members": `splits.reduce((acc, split) => acc + split.members.length, 0)`. */
  function TotalMembers(ss: seq<Split>): (n: nat)
    ensures ss == [] ==> n == 0
    ensures ss != [] ==> n >= |ss[0].members|
    ensures ss != [] ==> n == TotalMembers(ss[..|ss| - 1]) + |ss[|ss| - 1].members|
    decreases |ss|
  {
    if ss == [] then 0
    else
      assert ss[1..] != [] ==> ss[..|ss| - 1][1..] == ss[1..][..|ss[1..]| - 1];
      |ss[0].members| + TotalMembers(ss[1..])
  }

  lemma {:induction false} TotalMembersAppend(a: seq<Split>, b: seq<Split>)
    ensures TotalMembers(a + b) == TotalMembers(a) + TotalMembers(b)
    decreases |a|
  {
    if a == [] {
      assert a + b == b;
    } else {
      assert (a + b)[1..] == a[1..] + b;
      TotalMembersAppend(a[1..], b);
    }
  }

  /** Creating a split adds its member rows to "Total Members". */
  lemma CreateAddsMembers(ss: seq<Split>, s: Split)
    ensures TotalMembers(ss + [s]) == TotalMembers(ss) + |s.members|
  {
    TotalMembersAppend(ss, [s]);
    assert [s][1..] == [];
  }

  /** Toggling a status leaves "Total Members" unchanged. */
  lemma {:induction false} ToggleKeepsTotalMembers(ss: seq<Split>, id: string)
    ensures TotalMembers(ToggleById(ss, id)) == TotalMembers(ss)
    decreases |ss|
  {
    if ss != [] {
      ToggleKeepsTotalMembers(ss[1..], id);
      assert ToggleById(ss, id)[1..] == ToggleById(ss[1..], id);
    }
  }

  /** "N members" on a split's row counts the creator too. */
  function MemberCount(s: Split): (n: nat)
    ensures n >= 1 && n - 1 == |s.members|
  {
    |s.members| + 1
  }

  /** Summed over the page, the per-row counts are "Total Members" plus one
      creator per split. */
  lemma {:induction false} MemberCountsSum(ss: seq<Split>)
    ensures RowCountSum(ss) == TotalMembers(ss) + |ss|
    decreases |ss|
  {
    if ss != [] {
      MemberCountsSum(ss[1..]);
    }
  }

  function RowCountSum(ss: seq<Split>): nat
    decreases |ss|
  {
    if ss == [] then 0 else MemberCount(ss[0]) + RowCountSum(ss[1..])
  }

  /** `split.members.slice(0, 2)`: the first two members at most. */
  function Preview(s: Split): (shown: seq<SplitMember>)
    ensures |shown| <= 2
    ensures shown <= s.members
    ensures |s.members| <= 2 ==> shown == s.members
    ensures |s.members| > 2 ==> |shown| == 2
  {
    s.members[..Ints.Min(2, |s.members|)]
  }

  /** The "+k more" line: present only for more than two members, and then the
      preview and k account for every member. */
  function MoreLabel(s: Split): (more: Option<nat>)
    ensures more.Some? <==> |s.members| > 2
    ensures more.Some? ==> more.value >= 1 && |Preview(s)| + more.value == |s.members|
  {
    if |s.members| > 2 then Some(|s.members| - 2) else None
  }

  /** "Deactivate" is offered only for an active split: exactly the splits
      that toggling makes inactive. */
  function DeactivateShown(s: Split): (shown: bool)
    ensures shown <==> Toggled(s).status == Inactive
  {
    s.status == Active
  }

  /** Pressing the row's "Deactivate" button: present only on an active row;
      the row becomes inactive (with it, any split sharing its id flips). */
  method ClickDeactivate(store: SplitStore.Store, i: nat)
    requires i < |store.splits|
    modifies store`splits, store`selectedSplit
    ensures |store.splits| == |old(store.splits)|
    ensures !DeactivateShown(old(store.splits[i])) ==> unchanged(store)
    ensures DeactivateShown(old(store.splits[i])) ==>
      store.splits == ToggleById(old(store.splits), old(store.splits[i].id))
      && store.selectedSplit == ToggleSelected(old(store.selectedSplit), old(store.splits[i].id))
      && store.splits[i].status == Inactive
    ensures old(store.Sound()) ==> store.Sound()
  {
    if DeactivateShown(store.splits[i]) {
      store.ToggleSplitStatus(store.splits[i].id);
    }
  }

  /** Pressing the row's "View Details" button: the drawer opens on that row's
      split, out of edit mode, with the draft forked from it. The split comes
      from the committed list, so the session stays sound. */
  method ClickViewDetails(store: SplitStore.Store, i: nat)
    requires i < |store.splits|
    modifies store`isDetailDrawerOpen, store`selectedSplit, store`isEditMode,
             store`editCreatorPercentage, store`editMembers
    ensures store.isDetailDrawerOpen && store.selectedSplit == Some(old(store.splits[i]))
    ensures !store.isEditMode
    ensures store.editCreatorPercentage == old(store.splits[i].creatorPercentage)
    ensures store.editMembers == old(store.splits[i].members)
    ensures SplitDetailDrawer.Renders(store.isDetailDrawerOpen, store.selectedSplit)
            && SplitDetailDrawer.ShownMembers(store) == old(store.splits[i].members)
    ensures old(store.Sound()) ==> store.Sound()
  {
    store.OpenDetailDrawer(store.splits[i]);
  }

  /** With ids unique, deactivating an active split lowers the active count by one. */
  lemma {:induction false} DeactivateLowersActiveCount(ss: seq<Split>, i: nat)
    requires i < |ss| && ss[i].status == Active
    requires forall j :: 0 <= j < |ss| && j != i ==> ss[j].id != ss[i].id
    ensures ActiveCount(ToggleById(ss, ss[i].id)) == ActiveCount(ss) - 1
    decreases |ss|
  {
    var id := ss[i].id;
    var r := ToggleById(ss, id);
    assert r[1..] == ToggleById(ss[1..], id);
    if i == 0 {
      ToggleUnknownId(ss[1..], id);
    } else {
      DeactivateLowersActiveCount(ss[1..], i - 1);
    }
  }

  /** The preview avatar as written: `member.name?.[0] ||
      member.email[0].toUpperCase()`. `None` stands for the TypeError thrown
      when there is no name and the email is empty. */
  function PreviewAvatarAsWritten(m: SplitMember): (r: Option<string>)
    ensures r.None? <==> (m.name.None? || m.name.value == []) && m.email == []
  {
    if m.name.Some? && m.name.value != [] then Some([m.name.value[0]])
    else if m.email != [] then Some([Text.UpperChar(m.email[0])])
    else None
  }

  /** The preview avatar with the empty email handled: no initial at all. It
      never fails and agrees with the code wherever the code does not throw. */
  function PreviewAvatar(m: SplitMember): (r: string)
    ensures |r| <= 1
    ensures PreviewAvatarAsWritten(m).Some? ==> r == PreviewAvatarAsWritten(m).value
    ensures r == [] <==> PreviewAvatarAsWritten(m).None?
  {
    if m.name.Some? && m.name.value != [] then [m.name.value[0]]
    else if m.email != [] then [Text.UpperChar(m.email[0])]
    else []
  }

  /** A split committed by the create form with a member left as `addMember`
      made it has that member in its preview, whose avatar throws. */
  lemma CommittedSplitPreviewThrows(splitId: string, memberId: string)
    ensures var member := NewMember(memberId).(percentage := 50);
      var split := NewSplit(splitId, "Ad Revenue", "2024-01-01", 50, [member]);
      Committable(split) && member in Preview(split)
      && PreviewAvatarAsWritten(member).None? && PreviewAvatar(member) == []
  {
    var member := NewMember(memberId).(percentage := 50);
    assert [member][1..] == [];
    assert !Text.IsWhitespace("Ad Revenue"[0]);
    assert Preview(NewSplit(splitId, "Ad Revenue", "2024-01-01", 50, [member]))[0] == member;
  }

  /** With the unnamed member third, the split's row renders (both preview
      avatars succeed), so "View Details" can open it, and the drawer then
      throws on that member. */
  lemma ViewDetailsReachesDrawerCrash(splitId: string, id1: string, id2: string, id3: string)
    ensures var split := SplitDetailDrawer.ThirdMemberUnnamed(splitId, id1, id2, id3);
      Committable(split)
      && (forall m | m in Preview(split) :: PreviewAvatarAsWritten(m).Some?)
      && SplitDetailDrawer.MemberAvatarAsWritten(split.members[2]).None?
  {
    SplitDetailDrawer.AddedMemberAvatarThrows(splitId, id1, id2, id3);
    var split := SplitDetailDrawer.ThirdMemberUnnamed(splitId, id1, id2, id3);
    assert Preview(split) == split.members[..2];
  }
}
