/** The split detail drawer: it shows the selected split, or in edit mode the
    edit draft; it normalises the edit inputs like the create form does; "Save
    Changes" is enabled only when the draft adds up to 100%; "Cancel" only leaves
    edit mode (the draft is kept, and is what "Edit split" shows again). */
module SplitDetailDrawer {
  import opened Wrappers
  import opened Types
  import opened SplitStore
  import Text
  import Percent
  import Ints

  /** The drawer's content is rendered only while it is open on a selected split. */
  function Renders(isDetailDrawerOpen: bool, selectedSplit: Option<Split>): (shown: bool)
    ensures shown ==> selectedSplit.Some?
    ensures !isDetailDrawerOpen ==> !shown
    ensures isDetailDrawerOpen && selectedSplit.Some? ==> shown
  {
    isDetailDrawerOpen && selectedSplit.Some?
  }

  /** `isValidEdit`: the draft adds up to 100%. */
  function IsValidEdit(editTotalPercentage: int): bool {
    editTotalPercentage == 100
  }

  /** "Save Changes" is enabled exactly when saving the draft would give a
      balanced split. */
  lemma SaveEnabledIffBalanced(selected: Split, creatorPercentage: int, ms: seq<SplitMember>)
    ensures IsValidEdit(Total(creatorPercentage, ms)) <==> Balanced(EditedSplit(selected, creatorPercentage, ms))
  {
  }

  /** A draft that passes `isValidEdit`, made of in-range percentages, saved over
      a committable split, gives a committable split. */
  lemma ValidEditSavesCommittable(selected: Split, creatorPercentage: int, ms: seq<SplitMember>)
    requires Committable(selected)
    requires Percent.InRange(creatorPercentage) && MembersInRange(ms)
    requires IsValidEdit(Total(creatorPercentage, ms))
    ensures Committable(EditedSplit(selected, creatorPercentage, ms))
    ensures EditedSplit(selected, creatorPercentage, ms).(creatorPercentage := selected.creatorPercentage,
              members := selected.members, totalPercentage := selected.totalPercentage) == selected
  {
  }

  /** The creator percentage on display: the draft's in edit mode, otherwise the
      committed split's (0 without a selected split). */
  function ShownCreatorPercentage(store: SplitStore.Store): (p: int)
    reads store
    ensures store.isEditMode ==> p == store.editCreatorPercentage
    ensures !store.isEditMode && store.selectedSplit.Some? ==> p == store.selectedSplit.value.creatorPercentage
    ensures store.Sound() ==> Percent.InRange(p)
  {
    if store.isEditMode then store.editCreatorPercentage
    else if store.selectedSplit.Some? then store.selectedSplit.value.creatorPercentage
    else 0
  }

  /** The member rows on display: the draft's in edit mode, otherwise the committed split's. */
  function ShownMembers(store: SplitStore.Store): (ms: seq<SplitMember>)
    reads store
    requires store.selectedSplit.Some?
    ensures store.isEditMode ==> ms == store.editMembers
    ensures !store.isEditMode ==> ms == store.selectedSplit.value.members
    ensures store.Sound() ==> MembersInRange(ms)
  {
    if store.isEditMode then store.editMembers else store.selectedSplit.value.members
  }

  /** Outside edit mode the drawer shows the committed split, whose creator
      and member percentages add up to 100. */
  lemma CommittedViewAddsUp(store: SplitStore.Store)
    requires store.Sound() && store.selectedSplit.Some? && !store.isEditMode
    ensures Total(ShownCreatorPercentage(store), ShownMembers(store)) == 100
  {
  }

  /** "Edit split": enters edit mode on the draft as it stands. The button
      exists only outside edit mode. */
  method StartEdit(store: SplitStore.Store)
    requires !store.isEditMode
    modifies store`isEditMode
    ensures store.isEditMode
    ensures ShownCreatorPercentage(store) == store.editCreatorPercentage
    ensures store.selectedSplit.Some? ==> ShownMembers(store) == store.editMembers
    ensures old(store.Sound()) ==> store.Sound()
  {
    store.SetEditMode(true);
  }

  /** "Cancel": leaves edit mode and never saves; the committed splits and the
      selected split are untouched, the committed values are shown again, and
      the draft is left as it was. */
  method Cancel(store: SplitStore.Store)
    modifies store`isEditMode
    ensures !store.isEditMode
    ensures store.selectedSplit.Some? ==>
      ShownCreatorPercentage(store) == store.selectedSplit.value.creatorPercentage
      && ShownMembers(store) == store.selectedSplit.value.members
    ensures old(store.Sound()) ==> store.Sound()
  {
    store.SetEditMode(false);
  }

  /** "Save Changes": disabled unless the draft adds up to 100%; when enabled it
      saves the draft, which is then what the drawer shows. The button exists
      only in edit mode. */
  method Save(store: SplitStore.Store)
    requires store.isEditMode
    modifies store`splits, store`selectedSplit, store`isEditMode
    ensures !IsValidEdit(old(store.EditTotalPercentage())) ==> unchanged(store)
    ensures old(store.selectedSplit).None? ==> unchanged(store)
    ensures IsValidEdit(old(store.EditTotalPercentage())) && old(store.selectedSplit).Some? ==>
      var updated := EditedSplit(old(store.selectedSplit).value, old(store.editCreatorPercentage),
                                 old(store.editMembers));
      store.splits == ReplaceById(old(store.splits), updated)
      && store.selectedSplit == Some(updated) && !store.isEditMode
      && ShownCreatorPercentage(store) == old(store.editCreatorPercentage)
      && ShownMembers(store) == old(store.editMembers)
      && updated.totalPercentage == 100
    ensures old(store.Sound()) ==> store.Sound()
  {
    if IsValidEdit(store.EditTotalPercentage()) {
      store.SaveEditChanges();
    }
  }

  /** The backdrop and the close button. */
  method Close(store: SplitStore.Store)
    modifies store`isDetailDrawerOpen, store`selectedSplit, store`isEditMode,
             store`editCreatorPercentage, store`editMembers
    ensures !store.isDetailDrawerOpen && store.selectedSplit == None && !store.isEditMode
    ensures store.editCreatorPercentage == 0 && store.editMembers == []
    ensures store.splits == old(store.splits)
    ensures !Renders(store.isDetailDrawerOpen, store.selectedSplit)
    ensures old(store.Sound()) ==> store.Sound()
  {
    store.CloseDetailDrawer();
  }

  /** Typing into the creator's percentage field in edit mode: only the draft changes. */
  method EnterCreatorPercentage(store: SplitStore.Store, text: string)
    modifies store`editCreatorPercentage
    ensures store.editCreatorPercentage == Percent.Normalize(text)
    ensures Percent.InRange(store.editCreatorPercentage)
    ensures old(store.Sound()) ==> store.Sound()
  {
    store.SetEditCreatorPercentage(Percent.Normalize(text));
  }

  /** Typing into a member's percentage field in edit mode: only the draft changes. */
  method EnterMemberPercentage(store: SplitStore.Store, memberId: string, text: string)
    modifies store`editMembers
    ensures store.editMembers == WithPercentage(old(store.editMembers), memberId, Percent.Normalize(text))
    ensures MembersInRange(old(store.editMembers)) ==> MembersInRange(store.editMembers)
    ensures old(store.Sound()) ==> store.Sound()
  {
    store.UpdateEditMemberPercentage(memberId, Percent.Normalize(text));
    if MembersInRange(old(store.editMembers)) {
      PercentageUpdateInRange(old(store.editMembers), memberId, Percent.Normalize(text));
    }
  }

  /** `name.split(" ")` */
  function SplitOnSpace(s: string): (words: seq<string>)
    ensures |words| >= 1
    decreases |s|
  {
    if s == [] then [[]]
    else
      var rest := SplitOnSpace(s[1..]);
      if s[0] == ' ' then [[]] + rest else [[s[0]] + rest[0]] + rest[1..]
  }

  /** `words.join(" ")`, the inverse of `split(" ")`. */
  function JoinOnSpace(words: seq<string>): string
    decreases |words|
  {
    if words == [] then []
    else if |words| == 1 then words[0]
    else words[0] + " " + JoinOnSpace(words[1..])
  }

  /** `split(" ")` loses nothing: joining the words with single spaces gives
      the name back, and no word contains a space. */
  lemma {:induction false} SplitOnSpaceRoundTrip(s: string)
    ensures JoinOnSpace(SplitOnSpace(s)) == s
    ensures forall k :: 0 <= k < |SplitOnSpace(s)| ==> ' ' !in SplitOnSpace(s)[k]
    decreases |s|
  {
    if s != [] {
      var rest := SplitOnSpace(s[1..]);
      SplitOnSpaceRoundTrip(s[1..]);
      assert s == [s[0]] + s[1..];
      if s[0] == ' ' {
        var words := [[]] + rest;
        assert words[1..] == rest;
        assert JoinOnSpace(words) == [] + " " + JoinOnSpace(rest);
        forall k | 0 <= k < |words| ensures ' ' !in words[k] {
          if k > 0 {
            assert words[k] == rest[k - 1];
          }
        }
      } else {
        var words := [[s[0]] + rest[0]] + rest[1..];
        assert words[1..] == rest[1..];
        if |rest| > 1 {
          assert JoinOnSpace(rest) == rest[0] + " " + JoinOnSpace(rest[1..]);
        }
        assert JoinOnSpace(words) == [s[0]] + JoinOnSpace(rest);
        forall k | 0 <= k < |words| ensures ' ' !in words[k] {
          if k > 0 {
            assert words[k] == rest[k];
          } else {
            assert ' ' !in rest[0];
          }
        }
      }
    }
  }

  /** `words.map((n) => n[0]).join("")`; an empty word gives `undefined`, which
      `join` writes as nothing. */
  function FirstLetters(words: seq<string>): string
    decreases |words|
  {
    if words == [] then []
    else (if words[0] == [] then [] else [words[0][0]]) + FirstLetters(words[1..])
  }

  /** Reference definition: the characters of `s` that begin a word, that is,
      that are not a space and come first or right after a space. */
  function WordStarts(s: string, atStart: bool): string
    decreases |s|
  {
    if s == [] then []
    else if s[0] == ' ' then WordStarts(s[1..], true)
    else (if atStart then [s[0]] else []) + WordStarts(s[1..], false)
  }

  lemma {:induction false} FirstLettersAreWordStarts(s: string)
    ensures FirstLetters(SplitOnSpace(s)) == WordStarts(s, true)
    ensures FirstLetters(SplitOnSpace(s)[1..]) == WordStarts(s, false)
    decreases |s|
  {
    if s != [] {
      var rest := SplitOnSpace(s[1..]);
      FirstLettersAreWordStarts(s[1..]);
      if s[0] == ' ' {
        assert ([[]] + rest)[1..] == rest;
      } else {
        var words := [[s[0]] + rest[0]] + rest[1..];
        assert words[1..] == rest[1..];
        assert FirstLetters(words) == [s[0]] + FirstLetters(rest[1..]);
      }
    }
  }

  /** `getInitials`: at most two characters, the upper-cased first letters of
      the space-separated words of `name`, in order. */
  function GetInitials(name: string): (r: string)
    ensures |r| <= 2
    ensures |r| == Ints.Min(2, |WordStarts(name, true)|)
    ensures forall i :: 0 <= i < |r| ==> r[i] == Text.UpperChar(WordStarts(name, true)[i])
  {
    FirstLettersAreWordStarts(name);
    var upper := Text.ToUpper(FirstLetters(SplitOnSpace(name)));
    if |upper| <= 2 then upper else upper[..2]
  }

  /** The avatar text of a member row as written: `member.name ?
      getInitials(member.name) : member.email[0].toUpperCase()`. `None` stands
      for the TypeError thrown when there is no name and the email is empty. */
  function MemberAvatarAsWritten(m: SplitMember): (r: Option<string>)
    ensures r.None? <==> (m.name.None? || m.name.value == []) && m.email == []
  {
    if m.name.Some? && m.name.value != [] then Some(GetInitials(m.name.value))
    else if m.email != [] then Some([Text.UpperChar(m.email[0])])
    else None
  }

  /** The avatar text with the empty email handled: no initial at all. It never
      fails and agrees with the code wherever the code does not throw. */
  function MemberAvatar(m: SplitMember): (r: string)
    ensures |r| <= 2
    ensures MemberAvatarAsWritten(m).Some? ==> r == MemberAvatarAsWritten(m).value
    ensures (m.name.None? || m.name.value == []) ==> r == Text.ToUpper(m.email[..Ints.Min(1, |m.email|)])
  {
    if m.name.Some? && m.name.value != [] then GetInitials(m.name.value)
    else if m.email != [] then [Text.UpperChar(m.email[0])]
    else []
  }

  /** A split as the create form commits it: creator 50%, two members with
      emails at 20% each, and third a member as `addMember` made it, given 10%
      and no email. */
  function ThirdMemberUnnamed(splitId: string, id1: string, id2: string, id3: string): Split {
    NewSplit(splitId, "Ad Revenue", "2024-01-01", 50,
             [NewMember(id1).(email := "ana@example.com", percentage := 20),
              NewMember(id2).(email := "ben@example.com", percentage := 20),
              NewMember(id3).(percentage := 10)])
  }

  /** That split passes the create form, and the drawer's avatar for its third
      member throws; the first two avatars do not. */
  lemma AddedMemberAvatarThrows(splitId: string, id1: string, id2: string, id3: string)
    ensures var split := ThirdMemberUnnamed(splitId, id1, id2, id3);
      Committable(split) && |split.members| == 3
      && (forall j :: 0 <= j < 2 ==> MemberAvatarAsWritten(split.members[j]).Some?)
      && MemberAvatarAsWritten(split.members[2]).None? && MemberAvatar(split.members[2]) == []
  {
    var ms := ThirdMemberUnnamed(splitId, id1, id2, id3).members;
    assert ms[1..][1..][1..] == [];
    assert MemberTotal(ms[1..][1..]) == 10;
    assert MemberTotal(ms[1..]) == 30;
    assert MemberTotal(ms) == 50;
    assert !Text.IsWhitespace("Ad Revenue"[0]);
  }
}
