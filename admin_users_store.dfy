/** The admin users store (`useAdminUsersStore`): the user list with a search
    term, a status filter and a role filter; a user is listed when all three
    accept it. */
module AdminUsersStore {
  import opened Wrappers
  import opened Types
  import opened Seqs
  import Text

  /** `"all" | "verified" | "pending" | "suspended"` */
  datatype StatusFilter = AnyStatus | Verified | PendingStatus | SuspendedStatus

  function StatusFilterName(f: StatusFilter): string {
    match f
    case AnyStatus => "all"
    case Verified => "verified"
    case PendingStatus => "pending"
    case SuspendedStatus => "suspended"
  }

  /** `"all" | "CREATOR" | "MEMBER"` */
  datatype RoleFilter = AnyRole | CreatorRole | MemberRole

  function RoleFilterName(f: RoleFilter): string {
    match f
    case AnyRole => "all"
    case CreatorRole => "CREATOR"
    case MemberRole => "MEMBER"
  }

  /** `matchesSearch`: the lower-cased term occurs in the lower-cased first
      name, last name or email. */
  function MatchesSearch(u: User, term: string): (ok: bool)
    ensures ok ==> |term| <= |u.firstName| || |term| <= |u.lastName| || |term| <= |u.email|
  {
    var t := Text.ToLower(term);
    Text.Contains(Text.ToLower(u.firstName), t) || Text.Contains(Text.ToLower(u.lastName), t)
    || Text.Contains(Text.ToLower(u.email), t)
  }

  /** The search ignores case: a term matches exactly when its upper-cased or
      lower-cased form does. */
  lemma SearchIgnoresCase(u: User, term: string)
    ensures MatchesSearch(u, term) == MatchesSearch(u, Text.ToUpper(term))
    ensures MatchesSearch(u, term) == MatchesSearch(u, Text.ToLower(term))
  {
    Text.LowerIgnoresCase(term);
  }

  /** A term found in any case as a block of the first name, the last name or
      the email matches. */
  lemma SearchFindsInfix(u: User, before: string, piece: string, after: string, term: string)
    requires Text.ToLower(piece) == Text.ToLower(term)
    requires u.firstName == before + piece + after || u.lastName == before + piece + after
             || u.email == before + piece + after
    ensures MatchesSearch(u, term)
  {
    Text.LowerConcat(before, piece, after);
    Text.ContainsInfix(Text.ToLower(before), Text.ToLower(piece), Text.ToLower(after));
  }

  /** A matching term is, in some case, a block of the first name, the last
      name or the email: the converse of `SearchFindsInfix`. */
  lemma SearchMatchIsBlock(u: User, term: string) returns (before: string, piece: string, after: string)
    requires MatchesSearch(u, term)
    ensures Text.ToLower(piece) == Text.ToLower(term)
    ensures u.firstName == before + piece + after || u.lastName == before + piece + after
            || u.email == before + piece + after
  {
    var t := Text.ToLower(term);
    if Text.Contains(Text.ToLower(u.firstName), t) {
      before, piece, after := Text.LowerFoundIsBlock(u.firstName, term);
    } else if Text.Contains(Text.ToLower(u.lastName), t) {
      before, piece, after := Text.LowerFoundIsBlock(u.lastName, term);
    } else {
      before, piece, after := Text.LowerFoundIsBlock(u.email, term);
    }
  }

  /** `matchesStatus`: `statusFilter === "all" || user.status === statusFilter`.
      Comparing the strings passes a user exactly under "all" or when the
      user's status is the one the filter requests. */
  function MatchesStatus(u: User, f: StatusFilter): (ok: bool)
    ensures ok <==> f == AnyStatus || RequestedStatus(f) == Some(u.status)
  {
    StatusFilterName(f) == "all" || UserStatusName(u.status) == StatusFilterName(f)
  }

  /** `matchesRole`: `roleFilter === "all" || user.role === roleFilter`.
      Comparing the strings passes a user exactly under "all" or when the
      user's role is the one the filter names; no filter names `Admin`. */
  function MatchesRole(u: User, f: RoleFilter): (ok: bool)
    ensures ok <==> f == AnyRole || (f == CreatorRole && u.role == Creator) || (f == MemberRole && u.role == Member)
  {
    RoleFilterName(f) == "all" || RoleName(u.role) == RoleFilterName(f)
  }

  function Keeps(term: string, sf: StatusFilter, rf: RoleFilter): User -> bool {
    (u: User) => MatchesSearch(u, term) && MatchesStatus(u, sf) && MatchesRole(u, rf)
  }

  /** `getFilteredUsers()` */
  function FilteredUsers(users: seq<User>, term: string, sf: StatusFilter, rf: RoleFilter): (r: seq<User>)
    ensures |r| <= |users|
    ensures forall i :: 0 <= i < |r| ==> MatchesSearch(r[i], term)
  {
    Filter(users, Keeps(term, sf, rf))
  }

  /** The result lists, in their original order, exactly the users that pass all three tests. */
  lemma FilteredUsersExact(users: seq<User>, term: string, sf: StatusFilter, rf: RoleFilter, u: User)
    ensures IsSubsequence(FilteredUsers(users, term, sf, rf), users)
    ensures u in FilteredUsers(users, term, sf, rf)
        <==> u in users && MatchesSearch(u, term) && MatchesStatus(u, sf) && MatchesRole(u, rf)
  {
    FilterIsSubsequence(users, Keeps(term, sf, rf));
    FilterMembership(users, Keeps(term, sf, rf), u);
  }

  /** A user record listed more than once is listed as often as it occurs when
      it passes all three tests, and not at all otherwise. */
  lemma FilteredUsersCopies(users: seq<User>, term: string, sf: StatusFilter, rf: RoleFilter, u: User)
    ensures multiset(FilteredUsers(users, term, sf, rf))[u]
         == if MatchesSearch(u, term) && MatchesStatus(u, sf) && MatchesRole(u, rf)
            then multiset(users)[u] else 0
  {
    FilterMultiplicity(users, Keeps(term, sf, rf), u);
  }

  /** The empty search term matches every user. */
  lemma EmptySearchMatches(u: User)
    ensures MatchesSearch(u, "")
  {
    assert Text.ToLower("") == "";
    Text.ContainsEmpty(Text.ToLower(u.firstName));
  }

  /** With no search term and both filters on "all", every user is listed. */
  lemma NoFilterListsEveryone(users: seq<User>)
    ensures FilteredUsers(users, "", AnyStatus, AnyRole) == users
  {
    forall i | 0 <= i < |users| ensures Keeps("", AnyStatus, AnyRole)(users[i]) {
      EmptySearchMatches(users[i]);
    }
    FilterKeepsAll(users, Keeps("", AnyStatus, AnyRole));
  }

  /** The status a filter other than "all" asks for; no status answers to "verified". */
  function RequestedStatus(sf: StatusFilter): Option<UserStatus> {
    match sf
    case PendingStatus => Some(UserPending)
    case SuspendedStatus => Some(UserSuspended)
    case _ => None
  }

  /** A status filter other than "all" keeps only users with exactly that status. */
  lemma StatusFilterExact(users: seq<User>, term: string, sf: StatusFilter, rf: RoleFilter)
    requires sf != AnyStatus
    ensures var r := FilteredUsers(users, term, sf, rf);
      forall i :: 0 <= i < |r| ==> RequestedStatus(sf) == Some(r[i].status)
  {
    var r := FilteredUsers(users, term, sf, rf);
    forall i | 0 <= i < |r| ensures RequestedStatus(sf) == Some(r[i].status) {
    }
  }

  /** "verified" is offered as a filter but no user status has that value, so it lists nobody. */
  lemma VerifiedListsNobody(users: seq<User>, term: string, rf: RoleFilter)
    ensures FilteredUsers(users, term, Verified, rf) == []
  {
    forall i | 0 <= i < |users| ensures !Keeps(term, Verified, rf)(users[i]) {
    }
    FilterDropsAll(users, Keeps(term, Verified, rf));
  }

  /** A role filter other than "all" keeps only that role, so administrators
      are listed only under "all". */
  lemma RoleFilterExact(users: seq<User>, term: string, sf: StatusFilter, rf: RoleFilter)
    requires rf != AnyRole
    ensures var r := FilteredUsers(users, term, sf, rf);
      forall i :: 0 <= i < |r| ==> r[i].role != Admin && (rf == CreatorRole <==> r[i].role == Creator)
  {
  }

  class Store {
    var users: seq<User>
    var searchTerm: string
    var statusFilter: StatusFilter
    var roleFilter: RoleFilter
    var selectedUserId: Option<string>

    /** The store starts with the mock users, no search and no filters. */
    constructor (initial: seq<User>)
      ensures users == initial && searchTerm == "" && statusFilter == AnyStatus
      ensures roleFilter == AnyRole && selectedUserId == None
      ensures FilteredNow() == initial
    {
      users := initial;
      searchTerm := "";
      statusFilter := AnyStatus;
      roleFilter := AnyRole;
      selectedUserId := None;
      NoFilterListsEveryone(initial);
    }

    method SetSearchTerm(term: string)
      modifies this`searchTerm
      ensures searchTerm == term
    {
      searchTerm := term;
    }

    method SetStatusFilter(f: StatusFilter)
      modifies this`statusFilter
      ensures statusFilter == f
    {
      statusFilter := f;
    }

    method SetRoleFilter(f: RoleFilter)
      modifies this`roleFilter
      ensures roleFilter == f
    {
      roleFilter := f;
    }

    method SetSelectedUserId(userId: Option<string>)
      modifies this`selectedUserId
      ensures selectedUserId == userId
    {
      selectedUserId := userId;
    }

    /** The list the page shows: never longer than the store's list, and
        every user in it passes the current search, status and role. */
    function FilteredNow(): (r: seq<User>)
      reads this
      ensures |r| <= |users|
      ensures forall i :: 0 <= i < |r| ==>
        MatchesSearch(r[i], searchTerm) && MatchesStatus(r[i], statusFilter) && MatchesRole(r[i], roleFilter)
    {
      FilteredUsers(users, searchTerm, statusFilter, roleFilter)
    }
  }
}
