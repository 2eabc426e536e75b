/** The three tables of the registry (users, households, household members),
    the integrity constraints the database enforces when a transaction
    commits, and the derived household income. */
module Models {
  import opened Common

  /** A calendar date, as a `Date` column holds it. */
  datatype Date = Date(year: int, month: int, day: int)

  /** A `Numeric(10,2)` amount, held exactly as a whole number of hundredths. */
  type Cents = int

  /** A row of `users`. Timestamps are not modelled; `is_active` is a nullable
      column, so it is optional here. */
  datatype User = User(
    id: int,
    username: string,
    email: string,
    passwordHash: string,
    role: string,
    isActive: Option<bool>)

  /** A row of `households`. The nullable columns are optional, except the
      national id and the status, which the model holds as always present:
      a NULL in either is not modelled. */
  datatype Household = Household(
    id: int,
    nationalId: string,
    registrationDate: Date,
    address: string,
    primaryPhone: Option<string>,
    secondaryPhone: Option<string>,
    dwellingType: Option<string>,
    ownershipStatus: Option<string>,
    monthlyRent: Option<Cents>,
    numberOfRooms: Option<int>,
    hasElectricity: Option<bool>,
    hasWater: Option<bool>,
    hasSanitation: Option<bool>,
    totalMonthlyIncome: Cents,
    status: string,
    registeredBy: int)

  /** A row of `household_members`; `householdId` is the foreign key to its
      household. The nullable columns are optional, except the national id
      and the head-of-household flag, which the model holds as always present. */
  datatype Member = Member(
    id: int,
    householdId: int,
    nationalId: string,
    firstName: string,
    lastName: string,
    dateOfBirth: Date,
    gender: Option<string>,
    phoneNumber: Option<string>,
    relationshipToHead: Option<string>,
    maritalStatus: Option<string>,
    educationLevel: Option<string>,
    employmentStatus: Option<string>,
    monthlyIncome: Option<Cents>,
    isHouseholdHead: bool,
    disabilityStatus: Option<string>)

  // The roles the routers test for; any other role string is unprivileged.
  const Admin: string := "admin"
  const CaseWorker: string := "case_worker"

  // Column defaults applied when a row is inserted without the column.
  const DefaultIsActive: bool := true
  const DefaultStatus: string := "active"
  const DefaultIsHouseholdHead: bool := false

  /** `users.username` is unique. */
  predicate UniqueUsernames(users: map<int, User>)
  {
    forall a, b {:trigger users[a].username, users[b].username} | a in users && b in users ::
      users[a].username == users[b].username ==> a == b
  }

  /** `users.email` is unique. */
  predicate UniqueEmails(users: map<int, User>)
  {
    forall a, b {:trigger users[a].email, users[b].email} | a in users && b in users ::
      users[a].email == users[b].email ==> a == b
  }

  /** `households.household_national_id` is unique. */
  predicate UniqueHouseholdIds(households: map<int, Household>)
  {
    forall a, b {:trigger households[a].nationalId, households[b].nationalId} | a in households && b in households ::
      households[a].nationalId == households[b].nationalId ==> a == b
  }

  /** `household_members.national_id` is unique across all households. */
  predicate UniqueMemberIds(members: map<int, Member>)
  {
    forall a, b {:trigger members[a].nationalId, members[b].nationalId} | a in members && b in members ::
      members[a].nationalId == members[b].nationalId ==> a == b
  }

  /** Every member belongs to an existing household, and every household was
      registered by an existing user. */
  predicate ForeignKeys(users: map<int, User>, households: map<int, Household>, members: map<int, Member>)
  {
    && (forall id | id in members :: members[id].householdId in households)
    && (forall id | id in households :: households[id].registeredBy in users)
  }

  /** The constraints the database checks when a transaction commits. */
  predicate Consistent(users: map<int, User>, households: map<int, Household>, members: map<int, Member>)
  {
    && UniqueUsernames(users)
    && UniqueEmails(users)
    && UniqueHouseholdIds(households)
    && UniqueMemberIds(members)
    && ForeignKeys(users, households, members)
  }

  /** Every user is stored under its own id. */
  predicate UsersKeyed(users: map<int, User>)
  {
    forall id | id in users :: users[id].id == id
  }

  /** Every household is stored under its own id. */
  predicate HouseholdsKeyed(households: map<int, Household>)
  {
    forall id | id in households :: households[id].id == id
  }

  /** Every member is stored under its own id. */
  predicate MembersKeyed(members: map<int, Member>)
  {
    forall id | id in members :: members[id].id == id
  }

  /** A committed state: well-formed tables, rows stored under their own keys,
      the schema's constraints, and household totals that are the sums of
      their members' incomes. */
  ghost predicate Store(
    users: map<int, User>, userOrder: seq<int>, nextUserId: int,
    households: map<int, Household>, householdOrder: seq<int>, nextHouseholdId: int,
    members: map<int, Member>, memberOrder: seq<int>, nextMemberId: int)
  {
    && Table(users, userOrder, nextUserId)
    && Table(households, householdOrder, nextHouseholdId)
    && Table(members, memberOrder, nextMemberId)
    && UsersKeyed(users)
    && HouseholdsKeyed(households)
    && MembersKeyed(members)
    && Consistent(users, households, members)
    && IncomeConsistent(households, members, memberOrder)
  }

  /** The members of household `hid`, in store order: the `members` relationship. */
  function MembersOf(members: map<int, Member>, order: seq<int>, hid: int): (r: seq<Member>)
    ensures |r| <= |order|
  {
    if order == [] then []
    else
      var k := order[|order| - 1];
      MembersOf(members, order[..|order| - 1], hid) +
      (if k in members && members[k].householdId == hid then [members[k]] else [])
  }

  /** The `members` relationship lists exactly the rows, among those `order`
      lists, that belong to household `hid`. */
  lemma {:induction false} MembersOfListed(members: map<int, Member>, order: seq<int>, hid: int)
    ensures forall x :: x in MembersOf(members, order, hid) <==>
      exists i :: 0 <= i < |order| && order[i] in members && members[order[i]] == x && x.householdId == hid
  {
    if order != [] {
      var init := order[..|order| - 1];
      MembersOfListed(members, init, hid);
      forall x | (exists i :: 0 <= i < |init| && init[i] in members && members[init[i]] == x && x.householdId == hid)
        ensures exists i :: 0 <= i < |order| && order[i] in members && members[order[i]] == x && x.householdId == hid
      {
        var i :| 0 <= i < |init| && init[i] in members && members[init[i]] == x && x.householdId == hid;
        assert order[i] == init[i];
      }
    }
  }

  /** A missing amount counts as zero. */
  function OrZero(amount: Option<Cents>): Cents
  {
    if amount.Some? then amount.value else 0
  }

  /** The exact sum of `amounts`, a missing amount counting as zero. */
  function Total(amounts: seq<Option<Cents>>): Cents
  {
    if amounts == [] then 0 else Total(amounts[..|amounts| - 1]) + OrZero(amounts[|amounts| - 1])
  }

  /** The `monthly_income` of each of `ms`. */
  function Incomes(ms: seq<Member>): (r: seq<Option<Cents>>)
    ensures |r| == |ms|
    ensures forall i :: 0 <= i < |ms| ==> r[i] == ms[i].monthlyIncome
  {
    if ms == [] then [] else Incomes(ms[..|ms| - 1]) + [ms[|ms| - 1].monthlyIncome]
  }

  /** What `total_monthly_income` of household `hid` must be. */
  function HouseholdIncome(members: map<int, Member>, order: seq<int>, hid: int): Cents
  {
    Total(Incomes(MembersOf(members, order, hid)))
  }

  /** Every household's total is the sum of its members' incomes. */
  predicate IncomeConsistent(households: map<int, Household>, members: map<int, Member>, order: seq<int>)
  {
    forall id {:trigger HouseholdIncome(members, order, id)} | id in households ::
      households[id].totalMonthlyIncome == HouseholdIncome(members, order, id)
  }

  /** Totals add up over a concatenation. */
  lemma {:induction false} TotalAppend(a: seq<Option<Cents>>, b: seq<Option<Cents>>)
    ensures Total(a + b) == Total(a) + Total(b)
  {
    if b == [] {
      assert a + b == a;
    } else {
      assert (a + b)[..|a + b| - 1] == a + b[..|b| - 1];
      TotalAppend(a, b[..|b| - 1]);
    }
  }

  /** A total over amounts that are all missing or zero is zero. */
  lemma {:induction false} TotalOfNothing(amounts: seq<Option<Cents>>)
    requires forall i :: 0 <= i < |amounts| ==> OrZero(amounts[i]) == 0
    ensures Total(amounts) == 0
  {
    if amounts != [] {
      TotalOfNothing(amounts[..|amounts| - 1]);
    }
  }

  /** Scanning one more key finds one more member when that row belongs to `hid`. */
  lemma MembersOfSnoc(members: map<int, Member>, order: seq<int>, k: int, hid: int)
    ensures MembersOf(members, order + [k], hid) ==
      MembersOf(members, order, hid) + (if k in members && members[k].householdId == hid then [members[k]] else [])
  {
    assert (order + [k])[..|order|] == order;
  }

  /** What the row under key `k` adds to household `hid`'s income: its income,
      or zero when it is missing, when the row belongs to `hid`; nothing otherwise. */
  function RowIncome(members: map<int, Member>, k: int, hid: int): Cents
  {
    if k in members && members[k].householdId == hid then OrZero(members[k].monthlyIncome) else 0
  }

  /** A household's income is that of all rows but the last, plus what the last row adds. */
  lemma HouseholdIncomeLast(members: map<int, Member>, order: seq<int>, hid: int)
    requires order != []
    ensures HouseholdIncome(members, order, hid) ==
      HouseholdIncome(members, order[..|order| - 1], hid) + RowIncome(members, order[|order| - 1], hid)
  {
    var k := order[|order| - 1];
    var before := MembersOf(members, order[..|order| - 1], hid);
    if k in members && members[k].householdId == hid {
      assert Incomes(before + [members[k]]) == Incomes(before) + [members[k].monthlyIncome];
      TotalAppend(Incomes(before), [members[k].monthlyIncome]);
    } else {
      assert before + [] == before;
    }
  }

  /** Scanning one more member row adds that row's income when it belongs to `hid`. */
  lemma HouseholdIncomeStep(members: map<int, Member>, order: seq<int>, k: int, hid: int)
    ensures HouseholdIncome(members, order + [k], hid) == HouseholdIncome(members, order, hid) + RowIncome(members, k, hid)
  {
    assert (order + [k])[..|order|] == order;
    HouseholdIncomeLast(members, order + [k], hid);
  }

  /** A household none of whose rows are in `order` has no members. */
  lemma {:induction false} MembersOfNone(members: map<int, Member>, order: seq<int>, hid: int)
    requires forall i :: 0 <= i < |order| && order[i] in members ==> members[order[i]].householdId != hid
    ensures MembersOf(members, order, hid) == []
  {
    if order != [] {
      MembersOfNone(members, order[..|order| - 1], hid);
    }
  }

  /** Inserting a row that `order` does not list changes no household's members. */
  lemma {:induction false} MembersOfFresh(members: map<int, Member>, order: seq<int>, k: int, m: Member, hid: int)
    requires k !in order
    ensures MembersOf(members[k := m], order, hid) == MembersOf(members, order, hid)
  {
    if order != [] {
      MembersOfFresh(members, order[..|order| - 1], k, m, hid);
    }
  }

  /** Appending a fresh row to the store adds it to its own household's members only. */
  lemma {:induction false} MembersOfInsert(members: map<int, Member>, order: seq<int>, k: int, m: Member, hid: int)
    requires k !in order
    ensures MembersOf(members[k := m], order + [k], hid) ==
      MembersOf(members, order, hid) + (if m.householdId == hid then [m] else [])
  {
    assert (order + [k])[..|order|] == order;
    MembersOfFresh(members, order, k, m, hid);
  }

  /** The members found in two stretches of store order, one after the other. */
  lemma {:induction false} MembersOfAppend(members: map<int, Member>, a: seq<int>, b: seq<int>, hid: int)
    ensures MembersOf(members, a + b, hid) == MembersOf(members, a, hid) + MembersOf(members, b, hid)
  {
    if b == [] {
      assert a + b == a;
    } else {
      var init, last := b[..|b| - 1], b[|b| - 1];
      assert (a + b)[..|a + b| - 1] == a + init;
      MembersOfAppend(members, a, init, hid);
    }
  }

  /** Rows stored under keys that `order` does not list change no household's members. */
  lemma {:induction false} MembersOfExtend(members: map<int, Member>, extra: map<int, Member>, order: seq<int>, hid: int)
    requires forall i :: 0 <= i < |order| ==> order[i] !in extra
    ensures MembersOf(members + extra, order, hid) == MembersOf(members, order, hid)
  {
    if order != [] {
      MembersOfExtend(members, extra, order[..|order| - 1], hid);
    }
  }

  /** Rewriting a member of household `h` leaves the members of every other household as they were. */
  lemma {:induction false} MembersOfOther(members: map<int, Member>, order: seq<int>, k: int, m: Member, hid: int)
    requires k in members && m.householdId == members[k].householdId != hid
    ensures MembersOf(members[k := m], order, hid) == MembersOf(members, order, hid)
  {
    if order != [] {
      MembersOfOther(members, order[..|order| - 1], k, m, hid);
    }
  }

  /** Rewriting a member without moving it or changing its income changes no household's income. */
  lemma {:induction false} IncomeUntouched(members: map<int, Member>, order: seq<int>, k: int, m: Member, hid: int)
    requires k in members
    requires m.householdId == members[k].householdId && m.monthlyIncome == members[k].monthlyIncome
    ensures HouseholdIncome(members[k := m], order, hid) == HouseholdIncome(members, order, hid)
  {
    if order != [] {
      IncomeUntouched(members, order[..|order| - 1], k, m, hid);
      HouseholdIncomeLast(members[k := m], order, hid);
      HouseholdIncomeLast(members, order, hid);
      assert RowIncome(members[k := m], order[|order| - 1], hid) == RowIncome(members, order[|order| - 1], hid);
    }
  }

  /** The constraints do not look at a household's total. */
  lemma ConsistentIgnoresTotal(
    users: map<int, User>, households: map<int, Household>, members: map<int, Member>, hid: int, total: Cents)
    requires hid in households
    ensures Consistent(users, households[hid := households[hid].(totalMonthlyIncome := total)], members)
      == Consistent(users, households, members)
  {
    var hs := households[hid := households[hid].(totalMonthlyIncome := total)];
    assert hs.Keys == households.Keys;
    assert forall id | id in hs :: hs[id].nationalId == households[id].nationalId;
    assert forall id | id in hs :: hs[id].registeredBy == households[id].registeredBy;
  }

  /** After one member of household `hid` is rewritten in place, setting that
      household's total to its recomputed income restores the income invariant
      for every household. */
  lemma RecomputedIncome(
    households: map<int, Household>, members: map<int, Member>, order: seq<int>,
    k: int, m: Member, hid: int)
    requires IncomeConsistent(households, members, order)
    requires k in members && members[k].householdId == hid && m.householdId == hid && hid in households
    ensures IncomeConsistent(
      households[hid := households[hid].(totalMonthlyIncome := HouseholdIncome(members[k := m], order, hid))],
      members[k := m], order)
  {
    forall id | id in households && id != hid
      ensures HouseholdIncome(members[k := m], order, id) == HouseholdIncome(members, order, id)
    {
      MembersOfOther(members, order, k, m, id);
    }
  }

  /** Recomputing the total after a rewrite that keeps a member's household
      and income gives back the stored total. */
  lemma RecomputeKeepsTotal(
    households: map<int, Household>, members: map<int, Member>, order: seq<int>,
    k: int, m: Member, hid: int)
    requires IncomeConsistent(households, members, order) && hid in households
    requires k in members
    requires m.householdId == members[k].householdId && m.monthlyIncome == members[k].monthlyIncome
    ensures households[hid].(totalMonthlyIncome := HouseholdIncome(members[k := m], order, hid)) == households[hid]
  {
    IncomeUntouched(members, order, k, m, hid);
  }
}
