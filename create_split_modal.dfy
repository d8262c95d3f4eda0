/** The "Create Split" modal: it normalises percentage text before handing it to
    the store, enables "Create Split" only for a valid form, calls `createSplit`
    only for a valid form, and resets the form whenever it is closed or cancelled. */
module CreateSplitModal {
  import opened Types
  import opened SplitStore
  import Text
  import Percent

  /** `isValid`: the form adds up to 100% and its name is not blank. */
  function IsValid(totalPercentage: int, splitName: string): (ok: bool)
    ensures ok <==> totalPercentage == 100
                    && exists i :: 0 <= i < |splitName| && !Text.IsWhitespace(splitName[i])
  {
    Text.TrimEmptyIff(splitName);
    totalPercentage == 100 && Text.Trim(splitName) != ""
  }

  /** The "Split must add up to 100%" warning: shown exactly when no name could
      make the form valid. */
  function WarningShown(totalPercentage: int): (shown: bool)
    ensures shown <==> forall name :: !IsValid(totalPercentage, name)
  {
    assert !Text.IsWhitespace("x"[0]);
    assert IsValid(totalPercentage, "x") <==> totalPercentage == 100;
    totalPercentage != 100
  }

  /** "Create Split" is disabled exactly when the form is not valid. */
  function SubmitDisabled(totalPercentage: int, splitName: string): (disabled: bool)
    ensures disabled <==> !(totalPercentage == 100 && Text.HasVisibleChar(splitName))
    ensures WarningShown(totalPercentage) ==> disabled
  {
    !IsValid(totalPercentage, splitName)
  }

  /** `handleSubmit`: a valid form becomes a new active split and the form is
      reset; an invalid one changes nothing. Either way the allocation rules
      hold, and only the form and the split list can change. */
  method HandleSubmit(store: SplitStore.Store, id: string, today: string)
    modifies store`splits, store`isCreateSplitOpen, store`splitName, store`splitStartDate,
             store`creatorPercentage, store`members
    ensures var valid := IsValid(old(store.TotalPercentage()), old(store.splitName));
      if valid then
        store.splits == old(store.splits) + [NewSplit(id, old(store.splitName), old(store.splitStartDate),
                                                      old(store.creatorPercentage), old(store.members))]
        && store.FormIsReset(today)
      else
        unchanged(store)
    ensures old(store.Sound()) ==> store.Sound()
  {
    if IsValid(store.TotalPercentage(), store.splitName) {
      Text.TrimEmptyIff(store.splitName);
      store.CreateSplit(id, today);
    }
  }

  /** Closing the modal and pressing "Cancel" both reset the form and close it;
      committed splits and the drawer are untouched. */
  method Dismiss(store: SplitStore.Store, today: string)
    modifies store`isCreateSplitOpen, store`splitName, store`splitStartDate,
             store`creatorPercentage, store`members
    ensures store.FormIsReset(today)
    ensures old(store.Sound()) ==> store.Sound()
  {
    store.ResetForm(today);
    store.SetCreateSplitOpen(false);
  }

  /** Typing into the creator's percentage field: only that field changes. */
  method EnterCreatorPercentage(store: SplitStore.Store, text: string)
    modifies store`creatorPercentage
    ensures store.creatorPercentage == Percent.Normalize(text)
    ensures old(store.Sound()) ==> store.Sound()
  {
    store.SetCreatorPercentage(Percent.Normalize(text));
  }

  /** Typing into a member's percentage field: only the form's member list changes. */
  method EnterMemberPercentage(store: SplitStore.Store, memberId: string, text: string)
    modifies store`members
    ensures store.members == WithPercentage(old(store.members), memberId, Percent.Normalize(text))
    ensures old(store.Sound()) ==> store.Sound()
  {
    store.UpdateMemberPercentage(memberId, Percent.Normalize(text));
  }

  /** A form whose creator field and member fields were all filled in through
      the inputs, with a total of 100, commits a balanced split. */
  lemma ValidFormCommitsBalanced(id: string, name: string, date: string, creatorText: string,
                                 ms: seq<SplitMember>)
    requires MembersInRange(ms)
    requires IsValid(Total(Percent.Normalize(creatorText), ms), name)
    ensures Committable(NewSplit(id, name, date, Percent.Normalize(creatorText), ms))
  {
  }
}
