/** The revenue-split store (`useSplitStore`): a create-form draft, the list of
    committed splits, and the detail drawer with an edit draft forked from the
    selected split. Every zustand field is a field of the class below; every
    action is a method whose `modifies` clause names exactly the fields that the
    action's `set` call writes, so each method also promises that no other field
    changes. Ids (`Date.now()`) and today's date are parameters; ids are not
    assumed to be unique. The store itself never checks that a split adds up to
    100%: `Sound()` records the allocation rules, and each method says under which
    condition on its arguments it keeps them — the components supply it. */
module SplitStore {
  import opened Wrappers
  import opened Types
  import opened Seqs
  import Text
  import Percent

  const CreatorId: string := "1"
  const CreatorName: string := "John Doe"
  const DefaultCreatorPercentage: int := 50

  /** The member `addMember` appends: empty email, no name, 0%, so it adds
      nothing to the total and is in range. */
  function NewMember(id: string): (m: SplitMember)
    ensures m.id == id && m.email == [] && m.name.None?
    ensures MemberTotal([m]) == 0 && MembersInRange([m])
  {
    SplitMember(id, "", None, 0)
  }

  /** `members.reduce((sum, m) => sum + m.percentage, 0)` */
  function MemberTotal(ms: seq<SplitMember>): (t: int)
    ensures MembersInRange(ms) ==> 0 <= t <= 100 * |ms|
    decreases |ms|
  {
    if ms == [] then 0 else ms[0].percentage + MemberTotal(ms[1..])
  }

  predicate MembersInRange(ms: seq<SplitMember>) {
    forall i :: 0 <= i < |ms| ==> Percent.InRange(ms[i].percentage)
  }

  /** The total a split, the form or the edit draft shows: creator plus members. */
  function Total(creatorPercentage: int, ms: seq<SplitMember>): (t: int)
    ensures Percent.InRange(creatorPercentage) && MembersInRange(ms) ==> 0 <= t <= 100 * (|ms| + 1)
  {
    creatorPercentage + MemberTotal(ms)
  }

  lemma {:induction false} MemberTotalAppend(a: seq<SplitMember>, b: seq<SplitMember>)
    ensures MemberTotal(a + b) == MemberTotal(a) + MemberTotal(b)
    decreases |a|
  {
    if a == [] {
      assert a + b == b;
    } else {
      assert (a + b)[1..] == a[1..] + b;
      MemberTotalAppend(a[1..], b);
    }
  }

  function HasId(id: string): SplitMember -> bool {
    (m: SplitMember) => m.id == id
  }

  function LacksId(id: string): SplitMember -> bool {
    (m: SplitMember) => m.id != id
  }

  /** `members.filter((m) => m.id !== id)` */
  function WithoutMember(ms: seq<SplitMember>, id: string): (r: seq<SplitMember>)
    ensures forall i :: 0 <= i < |r| ==> r[i].id != id
    ensures |r| <= |ms|
  {
    Filter(ms, LacksId(id))
  }

  /** After `removeMember(id)` exactly the members without that id remain, in
      their original relative order and with their percentages. */
  lemma RemoveMemberKeepsOthers(ms: seq<SplitMember>, id: string, m: SplitMember)
    ensures IsSubsequence(WithoutMember(ms, id), ms)
    ensures m in WithoutMember(ms, id) <==> m in ms && m.id != id
  {
    FilterIsSubsequence(ms, LacksId(id));
    FilterMembership(ms, LacksId(id), m);
  }

  /** Removing members lowers the total by exactly the percentages they held. */
  lemma {:induction false} RemoveMemberTotal(ms: seq<SplitMember>, id: string)
    ensures MemberTotal(WithoutMember(ms, id)) == MemberTotal(ms) - MemberTotal(Filter(ms, HasId(id)))
    decreases |ms|
  {
    if ms != [] {
      RemoveMemberTotal(ms[1..], id);
      if ms[0].id == id {
        assert WithoutMember(ms, id) == WithoutMember(ms[1..], id);
        assert Filter(ms, HasId(id)) == [ms[0]] + Filter(ms[1..], HasId(id));
        assert (([ms[0]] + Filter(ms[1..], HasId(id)))[1..]) == Filter(ms[1..], HasId(id));
      } else {
        assert Filter(ms, HasId(id)) == Filter(ms[1..], HasId(id));
        assert WithoutMember(ms, id) == [ms[0]] + WithoutMember(ms[1..], id);
        assert (([ms[0]] + WithoutMember(ms[1..], id))[1..]) == WithoutMember(ms[1..], id);
      }
    }
  }

  /** Adding a member and then removing it by its (fresh) id restores the list. */
  lemma AddThenRemove(ms: seq<SplitMember>, id: string)
    requires forall i :: 0 <= i < |ms| ==> ms[i].id != id
    ensures WithoutMember(ms + [NewMember(id)], id) == ms
  {
    FilterAppend(ms, [NewMember(id)], LacksId(id));
    FilterKeepsAll(ms, LacksId(id));
    assert [NewMember(id)][1..] == [];
  }

  /** When the new member's id collides with an earlier one (two `addMember`
      calls in the same millisecond), removing it removes the earlier one too. */
  lemma AddThenRemoveCollision(ms: seq<SplitMember>, id: string)
    ensures WithoutMember(ms + [NewMember(id)], id) == WithoutMember(ms, id)
    ensures (exists i :: 0 <= i < |ms| && ms[i].id == id) ==> |WithoutMember(ms, id)| < |ms|
  {
    FilterAppend(ms, [NewMember(id)], LacksId(id));
    assert [NewMember(id)][1..] == [];
    if exists i :: 0 <= i < |ms| && ms[i].id == id {
      var i :| 0 <= i < |ms| && ms[i].id == id;
      FilterMembership(ms, LacksId(id), ms[i]);
      FilterPartition(ms, LacksId(id), HasId(id));
      FilterMembership(ms, HasId(id), ms[i]);
    }
  }

  /** `members.map((m) => (m.id === id ? { ...m, email } : m))`: only the email
      of the members with that id changes. */
  function WithEmail(ms: seq<SplitMember>, id: string, email: string): (r: seq<SplitMember>)
    ensures |r| == |ms|
    ensures forall i :: 0 <= i < |ms| ==>
      r[i].(email := ms[i].email) == ms[i] && r[i].email == (if ms[i].id == id then email else ms[i].email)
    decreases |ms|
  {
    if ms == [] then []
    else [if ms[0].id == id then ms[0].(email := email) else ms[0]] + WithEmail(ms[1..], id, email)
  }

  /** `members.map((m) => m.id === id ? { ...m, percentage } : m)`: only the
      percentage of the members with that id changes. */
  function WithPercentage(ms: seq<SplitMember>, id: string, p: int): (r: seq<SplitMember>)
    ensures |r| == |ms|
    ensures forall i :: 0 <= i < |ms| ==>
      r[i].(percentage := ms[i].percentage) == ms[i]
      && r[i].percentage == (if ms[i].id == id then p else ms[i].percentage)
    decreases |ms|
  {
    if ms == [] then []
    else [if ms[0].id == id then ms[0].(percentage := p) else ms[0]] + WithPercentage(ms[1..], id, p)
  }

  /** Lists whose percentages agree position by position have the same total. */
  lemma {:induction false} SamePercentagesSameTotal(a: seq<SplitMember>, b: seq<SplitMember>)
    requires |a| == |b|
    requires forall i :: 0 <= i < |a| ==> a[i].percentage == b[i].percentage
    ensures MemberTotal(a) == MemberTotal(b)
    decreases |a|
  {
    if a != [] {
      SamePercentagesSameTotal(a[1..], b[1..]);
    }
  }

  /** Editing an email never changes the total. */
  lemma EmailUpdateKeepsTotal(ms: seq<SplitMember>, id: string, email: string)
    ensures MemberTotal(WithEmail(ms, id, email)) == MemberTotal(ms)
  {
    var r := WithEmail(ms, id, email);
    forall i | 0 <= i < |ms| ensures r[i].percentage == ms[i].percentage {
      assert r[i].(email := ms[i].email).percentage == ms[i].percentage;
    }
    SamePercentagesSameTotal(r, ms);
  }

  /** Setting the percentage of the members with `id` to `p` replaces their
      share of the total by `p` once per such member. */
  lemma {:induction false} PercentageUpdateTotal(ms: seq<SplitMember>, id: string, p: int)
    ensures MemberTotal(WithPercentage(ms, id, p))
      == MemberTotal(ms) - MemberTotal(Filter(ms, HasId(id))) + p * |Filter(ms, HasId(id))|
    decreases |ms|
  {
    if ms != [] {
      var rest := WithPercentage(ms[1..], id, p);
      var tail := Filter(ms[1..], HasId(id));
      PercentageUpdateTotal(ms[1..], id, p);
      var head := if ms[0].id == id then ms[0].(percentage := p) else ms[0];
      assert WithPercentage(ms, id, p) == [head] + rest;
      assert ([head] + rest)[1..] == rest;
      assert MemberTotal(WithPercentage(ms, id, p)) == head.percentage + MemberTotal(rest);
      if ms[0].id == id {
        assert Filter(ms, HasId(id)) == [ms[0]] + tail;
        assert ([ms[0]] + tail)[1..] == tail;
        assert MemberTotal(Filter(ms, HasId(id))) == ms[0].percentage + MemberTotal(tail);
        assert p * (|tail| + 1) == p * |tail| + p;
      } else {
        assert Filter(ms, HasId(id)) == tail;
      }
    }
  }

  /** Removing members keeps every remaining percentage in range. */
  lemma RemoveMemberInRange(ms: seq<SplitMember>, id: string)
    requires MembersInRange(ms)
    ensures MembersInRange(WithoutMember(ms, id))
  {
    var r := WithoutMember(ms, id);
    forall i | 0 <= i < |r| ensures Percent.InRange(r[i].percentage) {
      FilterMembership(ms, LacksId(id), r[i]);
    }
  }

  /** Setting an in-range percentage keeps every member in range. */
  lemma PercentageUpdateInRange(ms: seq<SplitMember>, id: string, p: int)
    requires MembersInRange(ms) && Percent.InRange(p)
    ensures MembersInRange(WithPercentage(ms, id, p))
  {
  }

  function Flip(st: SplitStatus): SplitStatus {
    if st == Active then Inactive else Active
  }

  /** The split with its status flipped and every other field kept. */
  function Toggled(s: Split): (t: Split)
    ensures t.status != s.status
    ensures t.(status := s.status) == s
  {
    s.(status := Flip(s.status))
  }

  /** `splits.map((s) => s.id === splitId ? { ...s, status: flipped } : s)` */
  function ToggleById(ss: seq<Split>, id: string): (r: seq<Split>)
    ensures |r| == |ss|
    ensures forall i :: 0 <= i < |ss| ==> r[i] == if ss[i].id == id then Toggled(ss[i]) else ss[i]
    decreases |ss|
  {
    if ss == [] then [] else [if ss[0].id == id then Toggled(ss[0]) else ss[0]] + ToggleById(ss[1..], id)
  }

  /** The `selectedSplit` update of `toggleSplitStatus`. */
  function ToggleSelected(sel: Option<Split>, id: string): (r: Option<Split>)
    ensures r.None? <==> sel.None?
    ensures sel.Some? ==> r.value.(status := sel.value.status) == sel.value
    ensures sel.Some? ==> (r.value.status != sel.value.status <==> sel.value.id == id)
  {
    if sel.Some? && sel.value.id == id then Some(Toggled(sel.value)) else sel
  }

  /** Toggling the same id twice restores the list. */
  lemma ToggleTwice(ss: seq<Split>, id: string)
    ensures ToggleById(ToggleById(ss, id), id) == ss
  {
    var r := ToggleById(ToggleById(ss, id), id);
    assert forall i :: 0 <= i < |ss| ==> r[i] == ss[i];
  }

  /** Toggling the selected split twice restores it. */
  lemma ToggleSelectedTwice(sel: Option<Split>, id: string)
    ensures ToggleSelected(ToggleSelected(sel, id), id) == sel
  {
  }

  /** An id no split carries changes nothing. */
  lemma ToggleUnknownId(ss: seq<Split>, id: string)
    requires forall i :: 0 <= i < |ss| ==> ss[i].id != id
    ensures ToggleById(ss, id) == ss
  {
  }

  /** `splits.map((s) => s.id === updatedSplit.id ? updatedSplit : s)` */
  function ReplaceById(ss: seq<Split>, u: Split): (r: seq<Split>)
    ensures |r| == |ss|
    ensures forall i :: 0 <= i < |ss| ==> r[i] == if ss[i].id == u.id then u else ss[i]
    decreases |ss|
  {
    if ss == [] then [] else [if ss[0].id == u.id then u else ss[0]] + ReplaceById(ss[1..], u)
  }

  /** The split `createSplit` builds from the form: active, owned by the
      creator, and carrying the form's total. It is balanced exactly when the
      form's total is 100, and committable exactly when the form also has
      in-range percentages and a name; `createSplit` itself checks neither. */
  function NewSplit(id: string, name: string, startDate: string, creatorPercentage: int,
                    ms: seq<SplitMember>): (split: Split)
    ensures split.id == id && split.name == name && split.startDate == startDate
    ensures split.status == Active && split.creatorId == CreatorId && split.creatorName == CreatorName
    ensures split.creatorPercentage == creatorPercentage && split.members == ms
    ensures Balanced(split) <==> Total(creatorPercentage, ms) == 100
    ensures Committable(split) <==> Total(creatorPercentage, ms) == 100 && Percent.InRange(creatorPercentage)
                                    && MembersInRange(ms) && Text.HasVisibleChar(name)
  {
    Split(id, name, startDate, Active, CreatorId, CreatorName, creatorPercentage, ms,
          Total(creatorPercentage, ms))
  }

  /** The split `saveEditChanges` builds: the selected split with the draft's
      percentages and members; id, name, date, status and creator are kept, and
      it is balanced exactly when the draft's total is 100. */
  function EditedSplit(selected: Split, creatorPercentage: int, ms: seq<SplitMember>): (edited: Split)
    ensures edited.creatorPercentage == creatorPercentage && edited.members == ms
    ensures edited.(creatorPercentage := selected.creatorPercentage, members := selected.members,
                    totalPercentage := selected.totalPercentage) == selected
    ensures Balanced(edited) <==> Total(creatorPercentage, ms) == 100
  {
    selected.(creatorPercentage := creatorPercentage, members := ms,
              totalPercentage := Total(creatorPercentage, ms))
  }

  /** The allocation rule: creator plus members is 100, and the cached total says so. */
  predicate Balanced(s: Split) {
    Total(s.creatorPercentage, s.members) == 100 && s.totalPercentage == 100
  }

  /** What the components guarantee of every split they commit. */
  predicate Committable(s: Split) {
    Balanced(s) && Percent.InRange(s.creatorPercentage) && MembersInRange(s.members)
    && Text.HasVisibleChar(s.name)
  }

  predicate AllCommittable(ss: seq<Split>) {
    forall i :: 0 <= i < |ss| ==> Committable(ss[i])
  }

  /** Toggling status keeps every split committable. */
  lemma ToggleKeepsCommittable(ss: seq<Split>, id: string)
    requires AllCommittable(ss)
    ensures AllCommittable(ToggleById(ss, id))
  {
  }

  /** Saving a balanced, in-range draft over committable splits keeps them committable. */
  lemma ReplaceKeepsCommittable(ss: seq<Split>, u: Split)
    requires AllCommittable(ss) && Committable(u)
    ensures AllCommittable(ReplaceById(ss, u))
  {
  }

  class Store {
    // create form
    var isCreateSplitOpen: bool
    var splitName: string
    var splitStartDate: string
    var creatorPercentage: int
    var members: seq<SplitMember>
    // committed splits
    var splits: seq<Split>
    // detail drawer
    var isDetailDrawerOpen: bool
    var selectedSplit: Option<Split>
    var isEditMode: bool
    var editCreatorPercentage: int
    var editMembers: seq<SplitMember>

    /** The allocation rules as the components maintain them: every percentage
        in the form, the edit draft and the committed splits lies in [0, 100],
        and every committed split (and the selected one) is named and adds up
        to 100. */
    ghost predicate Sound()
      reads this
    {
      Percent.InRange(creatorPercentage) && MembersInRange(members)
      && AllCommittable(splits)
      && (selectedSplit.Some? ==> Committable(selectedSplit.value))
      && Percent.InRange(editCreatorPercentage) && MembersInRange(editMembers)
    }

    /** The form as `resetForm` leaves it. */
    ghost predicate FormIsReset(today: string)
      reads this
    {
      !isCreateSplitOpen && splitName == "" && splitStartDate == today
      && creatorPercentage == DefaultCreatorPercentage && members == []
    }

    constructor (today: string)
      ensures FormIsReset(today) && splits == []
      ensures !isDetailDrawerOpen && selectedSplit == None && !isEditMode
      ensures editCreatorPercentage == 0 && editMembers == []
      ensures Sound()
    {
      isCreateSplitOpen := false;
      splitName := "";
      splitStartDate := today;
      creatorPercentage := DefaultCreatorPercentage;
      members := [];
      splits := [];
      isDetailDrawerOpen := false;
      selectedSplit := None;
      isEditMode := false;
      editCreatorPercentage := 0;
      editMembers := [];
    }

    /** `getTotalPercentage()` */
    function TotalPercentage(): (t: int)
      reads this
      ensures Sound() ==> 0 <= t <= 100 * (|members| + 1)
    {
      Total(creatorPercentage, members)
    }

    /** `getEditTotalPercentage()` */
    function EditTotalPercentage(): (t: int)
      reads this
      ensures Sound() ==> 0 <= t <= 100 * (|editMembers| + 1)
    {
      Total(editCreatorPercentage, editMembers)
    }

    method SetCreateSplitOpen(open: bool)
      modifies this`isCreateSplitOpen
      ensures isCreateSplitOpen == open
      ensures old(Sound()) ==> Sound()
    {
      isCreateSplitOpen := open;
    }

    method SetSplitName(name: string)
      modifies this`splitName
      ensures splitName == name
      ensures old(Sound()) ==> Sound()
    {
      splitName := name;
    }

    method SetSplitStartDate(date: string)
      modifies this`splitStartDate
      ensures splitStartDate == date
      ensures old(Sound()) ==> Sound()
    {
      splitStartDate := date;
    }

    /** Stores whatever it is given; only an in-range value keeps `Sound()`. */
    method SetCreatorPercentage(p: int)
      modifies this`creatorPercentage
      ensures creatorPercentage == p
      ensures old(Sound()) && Percent.InRange(p) ==> Sound()
    {
      creatorPercentage := p;
    }

    /** Appends one member (the id is the caller's clock reading) and leaves the total alone. */
    method AddMember(id: string)
      modifies this`members
      ensures members == old(members) + [NewMember(id)]
      ensures TotalPercentage() == old(TotalPercentage())
      ensures old(Sound()) ==> Sound()
    {
      MemberTotalAppend(members, [NewMember(id)]);
      members := members + [NewMember(id)];
    }

    method RemoveMember(id: string)
      modifies this`members
      ensures members == WithoutMember(old(members), id)
      ensures old(Sound()) ==> Sound()
    {
      if Sound() {
        RemoveMemberInRange(members, id);
      }
      members := WithoutMember(members, id);
    }

    method UpdateMemberEmail(id: string, email: string)
      modifies this`members
      ensures members == WithEmail(old(members), id, email)
      ensures TotalPercentage() == old(TotalPercentage())
      ensures old(Sound()) ==> Sound()
    {
      EmailUpdateKeepsTotal(members, id, email);
      members := WithEmail(members, id, email);
    }

    method UpdateMemberPercentage(id: string, p: int)
      modifies this`members
      ensures members == WithPercentage(old(members), id, p)
      ensures old(Sound()) && Percent.InRange(p) ==> Sound()
    {
      if Sound() && Percent.InRange(p) {
        PercentageUpdateInRange(members, id, p);
      }
      members := WithPercentage(members, id, p);
    }

    /** Appends the form as a new active split, with no check of its total,
        then resets the form. The split keeps `Sound()` when the form's total
        is 100 and its name is not blank, which is what the create form checks. */
    method CreateSplit(id: string, today: string)
      modifies this`splits, this`isCreateSplitOpen, this`splitName, this`splitStartDate,
               this`creatorPercentage, this`members
      ensures splits == old(splits) + [NewSplit(id, old(splitName), old(splitStartDate),
                                                old(creatorPercentage), old(members))]
      ensures FormIsReset(today)
      ensures old(Sound()) && old(TotalPercentage()) == 100 && Text.HasVisibleChar(old(splitName))
              ==> Sound()
    {
      var newSplit := NewSplit(id, splitName, splitStartDate, creatorPercentage, members);
      splits := splits + [newSplit];
      ResetForm(today);
    }

    method ResetForm(today: string)
      modifies this`isCreateSplitOpen, this`splitName, this`splitStartDate,
               this`creatorPercentage, this`members
      ensures FormIsReset(today)
      ensures old(Sound()) ==> Sound()
    {
      isCreateSplitOpen := false;
      splitName := "";
      splitStartDate := today;
      creatorPercentage := DefaultCreatorPercentage;
      members := [];
    }

    /** Opens the drawer on `split` and forks the edit draft from it. */
    method OpenDetailDrawer(split: Split)
      modifies this`isDetailDrawerOpen, this`selectedSplit, this`isEditMode,
               this`editCreatorPercentage, this`editMembers
      ensures isDetailDrawerOpen && selectedSplit == Some(split) && !isEditMode
      ensures editCreatorPercentage == split.creatorPercentage && editMembers == split.members
      ensures EditTotalPercentage() == Total(split.creatorPercentage, split.members)
      ensures old(Sound()) && Committable(split) ==> Sound()
    {
      isDetailDrawerOpen := true;
      selectedSplit := Some(split);
      isEditMode := false;
      editCreatorPercentage := split.creatorPercentage;
      editMembers := split.members;
    }

    method CloseDetailDrawer()
      modifies this`isDetailDrawerOpen, this`selectedSplit, this`isEditMode,
               this`editCreatorPercentage, this`editMembers
      ensures !isDetailDrawerOpen && selectedSplit == None && !isEditMode
      ensures editCreatorPercentage == 0 && editMembers == []
      ensures old(Sound()) ==> Sound()
    {
      isDetailDrawerOpen := false;
      selectedSplit := None;
      isEditMode := false;
      editCreatorPercentage := 0;
      editMembers := [];
    }

    /** Only the flag changes: leaving edit mode keeps the draft as it is. */
    method SetEditMode(edit: bool)
      modifies this`isEditMode
      ensures isEditMode == edit
      ensures old(Sound()) ==> Sound()
    {
      isEditMode := edit;
    }

    method SetEditCreatorPercentage(p: int)
      modifies this`editCreatorPercentage
      ensures editCreatorPercentage == p
      ensures old(Sound()) && Percent.InRange(p) ==> Sound()
    {
      editCreatorPercentage := p;
    }

    method UpdateEditMemberPercentage(id: string, p: int)
      modifies this`editMembers
      ensures editMembers == WithPercentage(old(editMembers), id, p)
      ensures old(Sound()) && Percent.InRange(p) ==> Sound()
    {
      if Sound() && Percent.InRange(p) {
        PercentageUpdateInRange(editMembers, id, p);
      }
      editMembers := WithPercentage(editMembers, id, p);
    }

    /** Without a selected split nothing happens. Otherwise every split with the
        selected id is replaced by the selected split carrying the draft, and
        edit mode ends; the draft total is not checked here. */
    method SaveEditChanges()
      modifies this`splits, this`selectedSplit, this`isEditMode
      ensures old(selectedSplit).None? ==>
        splits == old(splits) && selectedSplit == None && isEditMode == old(isEditMode)
      ensures old(selectedSplit).Some? ==>
        var updated := EditedSplit(old(selectedSplit).value, editCreatorPercentage, editMembers);
        splits == ReplaceById(old(splits), updated) && selectedSplit == Some(updated) && !isEditMode
      ensures old(Sound()) && old(EditTotalPercentage()) == 100 ==> Sound()
    {
      if selectedSplit.None? {
        return;
      }
      var updated := EditedSplit(selectedSplit.value, editCreatorPercentage, editMembers);
      splits := ReplaceById(splits, updated);
      selectedSplit := Some(updated);
      isEditMode := false;
    }

    method ToggleSplitStatus(splitId: string)
      modifies this`splits, this`selectedSplit
      ensures splits == ToggleById(old(splits), splitId)
      ensures selectedSplit == ToggleSelected(old(selectedSplit), splitId)
      ensures old(Sound()) ==> Sound()
    {
      splits := ToggleById(splits, splitId);
      selectedSplit := ToggleSelected(selectedSplit, splitId);
    }
  }
}
