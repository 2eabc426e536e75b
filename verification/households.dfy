/** The request shapes and the pure rules of the household endpoints: who may
    write, how a registration turns its input into rows, how a partial update
    changes a row, and which households a search returns. */
module Households {
  import opened Common
  import opened Models

  /** One member as submitted with a registration. It carries no
      head-of-household flag, so the column default applies to every new row. */
  datatype MemberInput = MemberInput(
    nationalId: string,
    firstName: string,
    lastName: string,
    dateOfBirth: Date,
    gender: Option<string>,
    phoneNumber: Option<string>,
    relationshipToHead: Option<string>,
    maritalStatus: Option<string>,
    educationLevel: Option<string>,
    employmentStatus: Option<string>,
    monthlyIncome: Option<Cents>,
    disabilityStatus: Option<string>)

  /** A registration request: the household's own columns and its members in
      order. It carries no status, so the column default applies. */
  datatype HouseholdInput = HouseholdInput(
    nationalId: string,
    address: string,
    primaryPhone: Option<string>,
    secondaryPhone: Option<string>,
    dwellingType: Option<string>,
    ownershipStatus: Option<string>,
    monthlyRent: Option<Cents>,
    numberOfRooms: Option<int>,
    hasElectricity: Option<bool>,
    hasWater: Option<bool>,
    hasSanitation: Option<bool>,
    members: seq<MemberInput>)

  /** A partial update of a household: `None` leaves a column alone, `Some(v)`
      writes `v`, and `Some(None)` writes NULL, which the NOT NULL `address`
      column refuses at commit. The keys, the registration date, the
      registering user and the derived total are not part of it. */
  datatype HouseholdPatch = HouseholdPatch(
    nationalId: Option<string>,
    address: Option<Option<string>>,
    primaryPhone: Option<Option<string>>,
    secondaryPhone: Option<Option<string>>,
    dwellingType: Option<Option<string>>,
    ownershipStatus: Option<Option<string>>,
    monthlyRent: Option<Option<Cents>>,
    numberOfRooms: Option<Option<int>>,
    hasElectricity: Option<Option<bool>>,
    hasWater: Option<Option<bool>>,
    hasSanitation: Option<Option<bool>>,
    status: Option<string>)

  /** A partial update of a member, on the same terms; the NOT NULL columns are
      the names and the date of birth. The keys are not part of it. */
  datatype MemberPatch = MemberPatch(
    nationalId: Option<string>,
    firstName: Option<Option<string>>,
    lastName: Option<Option<string>>,
    dateOfBirth: Option<Option<Date>>,
    gender: Option<Option<string>>,
    phoneNumber: Option<Option<string>>,
    relationshipToHead: Option<Option<string>>,
    maritalStatus: Option<Option<string>>,
    educationLevel: Option<Option<string>>,
    employmentStatus: Option<Option<string>>,
    monthlyIncome: Option<Option<Cents>>,
    isHouseholdHead: Option<bool>,
    disabilityStatus: Option<Option<string>>)

  /** The role gate of the three household writes. */
  predicate CanWriteHouseholds(role: string)
  {
    role == Admin || role == CaseWorker
  }

  /** Is some stored household already registered under `nationalId`? */
  predicate NationalIdTaken(households: map<int, Household>, nationalId: string)
  {
    exists id | id in households :: households[id].nationalId == nationalId
  }

  /** The household row a registration inserts: the submitted columns, the
      server's date, the caller as registrant, the default status. */
  function NewHousehold(input: HouseholdInput, id: int, today: Date, registeredBy: int, total: Cents): Household
  {
    Household(
      id, input.nationalId, today, input.address, input.primaryPhone, input.secondaryPhone,
      input.dwellingType, input.ownershipStatus, input.monthlyRent, input.numberOfRooms,
      input.hasElectricity, input.hasWater, input.hasSanitation, total, DefaultStatus, registeredBy)
  }

  /** The member row a registration inserts for `input`, attached to household `hid`. */
  function NewMember(input: MemberInput, id: int, hid: int): Member
  {
    Member(
      id, hid, input.nationalId, input.firstName, input.lastName, input.dateOfBirth,
      input.gender, input.phoneNumber, input.relationshipToHead, input.maritalStatus,
      input.educationLevel, input.employmentStatus, input.monthlyIncome,
      DefaultIsHouseholdHead, input.disabilityStatus)
  }

  /** The ids given to `n` rows inserted one after another from `first` on. */
  function NewIds(first: int, n: nat): (r: seq<int>)
    ensures |r| == n
    ensures forall j :: 0 <= j < n ==> r[j] == first + j
  {
    if n == 0 then [] else NewIds(first, n - 1) + [first + n - 1]
  }

  /** The member rows of a registration, in input order. */
  function MemberRows(inputs: seq<MemberInput>, first: int, hid: int): (r: seq<Member>)
    ensures |r| == |inputs|
    ensures forall j :: 0 <= j < |inputs| ==> r[j] == NewMember(inputs[j], first + j, hid)
  {
    if inputs == [] then []
    else
      var n := |inputs| - 1;
      MemberRows(inputs[..n], first, hid) + [NewMember(inputs[n], first + n, hid)]
  }

  /** The member rows of a registration, by id. */
  function NewMembers(inputs: seq<MemberInput>, first: int, hid: int): (r: map<int, Member>)
    ensures forall k :: k in r <==> first <= k < first + |inputs|
    ensures forall j :: 0 <= j < |inputs| ==> r[first + j] == NewMember(inputs[j], first + j, hid)
  {
    if inputs == [] then map[]
    else
      var n := |inputs| - 1;
      NewMembers(inputs[..n], first, hid)[first + n := NewMember(inputs[n], first + n, hid)]
  }

  /** `store` holds the member rows of a registration under their keys. */
  ghost predicate HoldsRows(store: map<int, Member>, inputs: seq<MemberInput>, first: int, hid: int)
  {
    forall j :: 0 <= j < |inputs| ==> first + j in store && store[first + j] == NewMember(inputs[j], first + j, hid)
  }

  /** Listing the keys of the first `n` rows of a registration, in order,
      finds exactly those rows. */
  lemma {:induction false} MembersOfNewRows(
    store: map<int, Member>, inputs: seq<MemberInput>, first: int, hid: int, n: nat)
    requires n <= |inputs|
    requires HoldsRows(store, inputs, first, hid)
    ensures MembersOf(store, NewIds(first, n), hid) == MemberRows(inputs[..n], first, hid)
  {
    if n > 0 {
      var k := n - 1;
      MembersOfNewRows(store, inputs, first, hid, k);
      assert NewIds(first, n) == NewIds(first, k) + [first + k];
      MembersOfSnoc(store, NewIds(first, k), first + k, hid);
      assert inputs[..n][..k] == inputs[..k];
    }
  }

  /** The rows of a registration belong to no other household. */
  lemma {:induction false} MembersOfNewRowsOther(
    store: map<int, Member>, inputs: seq<MemberInput>, first: int, hid: int, id: int, n: nat)
    requires n <= |inputs| && id != hid
    requires HoldsRows(store, inputs, first, hid)
    ensures MembersOf(store, NewIds(first, n), id) == []
  {
    if n > 0 {
      var k := n - 1;
      MembersOfNewRowsOther(store, inputs, first, hid, id, k);
      assert NewIds(first, n) == NewIds(first, k) + [first + k];
      MembersOfSnoc(store, NewIds(first, k), first + k, id);
      var m := NewMember(inputs[k], first + k, hid);
      assert first + k in store && store[first + k] == m;
      assert MembersOf(store, NewIds(first, k), id) + [] == [];
    }
  }

  /** After a registration, the new household's members are its submitted
      rows, and every other household keeps the members it had. */
  lemma RegisteredMembers(
    members: map<int, Member>, order: seq<int>, inputs: seq<MemberInput>, first: int, hid: int, id: int)
    requires forall i :: 0 <= i < |order| ==> order[i] < first
    ensures MembersOf(members + NewMembers(inputs, first, hid), order + NewIds(first, |inputs|), id)
      == MembersOf(members, order, id) + if id == hid then MemberRows(inputs, first, hid) else []
  {
    var store := members + NewMembers(inputs, first, hid);
    MembersOfAppend(store, order, NewIds(first, |inputs|), id);
    MembersOfExtend(members, NewMembers(inputs, first, hid), order, id);
    assert HoldsRows(store, inputs, first, hid);
    if id == hid {
      MembersOfNewRows(store, inputs, first, hid, |inputs|);
      assert inputs[..|inputs|] == inputs;
    } else {
      MembersOfNewRowsOther(store, inputs, first, hid, id, |inputs|);
    }
  }

  /** Appending a registration's rows under the next keys keeps the table's shape. */
  lemma {:induction false} RegisteredTable(t: Rows<Member>, inputs: seq<MemberInput>, hid: int, r: Rows<Member>)
    requires Table(t.byId, t.order, t.nextId) && r == Registered(t, inputs, hid)
    ensures Table(r.byId, r.order, r.nextId)
  {
    if inputs != [] {
      var n := |inputs| - 1;
      var prev := Registered(t, inputs[..n], hid);
      RegisteredTable(t, inputs[..n], hid, prev);
      InsertedTable(prev, NewMember(inputs[n], t.nextId + n, hid));
    }
  }

  /** A registration's rows are stored under their own ids. */
  lemma {:induction false} RegisteredKeyed(t: Rows<Member>, inputs: seq<MemberInput>, hid: int, r: Rows<Member>)
    requires MembersKeyed(t.byId) && r == Registered(t, inputs, hid)
    ensures MembersKeyed(r.byId)
  {
    if inputs != [] {
      var n := |inputs| - 1;
      var prev := Registered(t, inputs[..n], hid);
      RegisteredKeyed(t, inputs[..n], hid, prev);
      RegisteredNext(t, inputs[..n], hid);
      assert r.byId == prev.byId[prev.nextId := NewMember(inputs[n], prev.nextId, hid)];
    }
  }

  /** The submitted `monthly_income` of each member, in input order. */
  function InputIncomes(inputs: seq<MemberInput>): (r: seq<Option<Cents>>)
    ensures |r| == |inputs|
    ensures forall j :: 0 <= j < |inputs| ==> r[j] == inputs[j].monthlyIncome
  {
    if inputs == [] then [] else InputIncomes(inputs[..|inputs| - 1]) + [inputs[|inputs| - 1].monthlyIncome]
  }

  /** The member table after the rows of `inputs` are inserted for household
      `hid`, one after another, each under the next key. */
  function Registered(t: Rows<Member>, inputs: seq<MemberInput>, hid: int): Rows<Member>
  {
    if inputs == [] then t
    else
      var n := |inputs| - 1;
      Inserted(Registered(t, inputs[..n], hid), NewMember(inputs[n], t.nextId + n, hid))
  }

  /** The key sequence moves on by one per registered row. */
  lemma {:induction false} RegisteredNext(t: Rows<Member>, inputs: seq<MemberInput>, hid: int)
    ensures Registered(t, inputs, hid).nextId == t.nextId + |inputs|
  {
    if inputs != [] {
      RegisteredNext(t, inputs[..|inputs| - 1], hid);
    }
  }

  /** The registered rows come after the table's own in store order, in input order. */
  lemma {:induction false} RegisteredOrder(t: Rows<Member>, inputs: seq<MemberInput>, hid: int)
    ensures Registered(t, inputs, hid).order == t.order + NewIds(t.nextId, |inputs|)
  {
    if inputs == [] {
      assert t.order + NewIds(t.nextId, 0) == t.order;
    } else {
      var n, first := |inputs| - 1, t.nextId;
      RegisteredOrder(t, inputs[..n], hid);
      RegisteredNext(t, inputs[..n], hid);
      assert t.order + NewIds(first, n + 1) == Registered(t, inputs[..n], hid).order + [first + n];
    }
  }

  /** The registered rows are stored under their own keys beside the table's rows. */
  lemma {:induction false} RegisteredById(t: Rows<Member>, inputs: seq<MemberInput>, hid: int)
    ensures Registered(t, inputs, hid).byId == t.byId + NewMembers(inputs, t.nextId, hid)
  {
    if inputs == [] {
      assert t.byId + NewMembers(inputs, t.nextId, hid) == t.byId;
    } else {
      var n, first := |inputs| - 1, t.nextId;
      var row := NewMember(inputs[n], first + n, hid);
      RegisteredById(t, inputs[..n], hid);
      RegisteredNext(t, inputs[..n], hid);
      var before := NewMembers(inputs[..n], first, hid);
      assert NewMembers(inputs, first, hid) == before[first + n := row];
      MergeUpdate(t.byId, before, first + n, row);
    }
  }

  /** One more submitted member: one more row inserted under the next key,
      and its income added to the running total. */
  lemma RegistrationStep(t: Rows<Member>, inputs: seq<MemberInput>, i: nat, hid: int)
    requires i < |inputs|
    ensures Registered(t, inputs[..i + 1], hid) ==
      Inserted(Registered(t, inputs[..i], hid), NewMember(inputs[i], t.nextId + i, hid))
    ensures Total(InputIncomes(inputs[..i + 1])) == Total(InputIncomes(inputs[..i])) + OrZero(inputs[i].monthlyIncome)
  {
    assert inputs[..i + 1][..i] == inputs[..i];
    var prefix := InputIncomes(inputs[..i]);
    assert InputIncomes(inputs[..i + 1]) == prefix + [inputs[i].monthlyIncome];
    assert (prefix + [inputs[i].monthlyIncome])[..i] == prefix;
  }

  /** The rows a registration inserts carry exactly the submitted incomes, so
      the household's income is the total of the submitted ones. */
  lemma {:induction false} RegistrationIncome(inputs: seq<MemberInput>, first: int, hid: int)
    ensures Total(Incomes(MemberRows(inputs, first, hid))) == Total(InputIncomes(inputs))
  {
    assert Incomes(MemberRows(inputs, first, hid)) == InputIncomes(inputs);
  }

  /** The registration example: incomes 100.00, none and 50.50 total 150.50. */
  lemma RegistrationIncomeExample()
    ensures Total([Some(10000), None, Some(5050)]) == 15050
  {
    assert [Some(10000), None, Some(5050)][..2] == [Some(10000), None];
    assert [Some(10000), None][..1] == [Some(10000)];
    assert [Some(10000)][..0] == [];
  }

  /** Two members of one registration that share a national id make the commit fail. */
  lemma DuplicateInputRefused(
    users: map<int, User>, households: map<int, Household>, members: map<int, Member>,
    inputs: seq<MemberInput>, first: int, hid: int, j1: nat, j2: nat)
    requires j1 < j2 < |inputs| && inputs[j1].nationalId == inputs[j2].nationalId
    ensures !Consistent(users, households, members + NewMembers(inputs, first, hid))
  {
    var merged := members + NewMembers(inputs, first, hid);
    assert first + j1 in merged && first + j2 in merged;
    assert merged[first + j1].nationalId == merged[first + j2].nationalId;
  }

  /** A submitted member whose national id is already stored makes the commit fail. */
  lemma TakenMemberIdRefused(
    users: map<int, User>, households: map<int, Household>, members: map<int, Member>,
    inputs: seq<MemberInput>, first: int, hid: int, j: nat, k: int)
    requires j < |inputs| && k in members && members[k].nationalId == inputs[j].nationalId
    requires forall id | id in members :: id < first
    ensures !Consistent(users, households, members + NewMembers(inputs, first, hid))
  {
    var merged := members + NewMembers(inputs, first, hid);
    assert k in merged && merged[k] == members[k];
    assert first + j in merged && merged[first + j].nationalId == inputs[j].nationalId;
  }

  /** `update_household`'s field-by-field write. The result is `None` when the
      patch nulls `address`, a NOT NULL column: such a row cannot be committed.
      Every other patched column takes its new value. */
  function ApplyHouseholdPatch(h: Household, p: HouseholdPatch): (r: Option<Household>)
    ensures r.None? <==> p.address == Some(None)
    ensures r.Some? ==> r.value.id == h.id && r.value.registrationDate == h.registrationDate
    ensures r.Some? ==> r.value.registeredBy == h.registeredBy && r.value.totalMonthlyIncome == h.totalMonthlyIncome
    ensures r.Some? ==> Patched(h.nationalId, r.value.nationalId, p.nationalId)
    ensures r.Some? ==> Patched(Some(h.address), Some(r.value.address), p.address)
    ensures r.Some? ==> Patched(h.primaryPhone, r.value.primaryPhone, p.primaryPhone)
    ensures r.Some? ==> Patched(h.secondaryPhone, r.value.secondaryPhone, p.secondaryPhone)
    ensures r.Some? ==> Patched(h.dwellingType, r.value.dwellingType, p.dwellingType)
    ensures r.Some? ==> Patched(h.ownershipStatus, r.value.ownershipStatus, p.ownershipStatus)
    ensures r.Some? ==> Patched(h.monthlyRent, r.value.monthlyRent, p.monthlyRent)
    ensures r.Some? ==> Patched(h.numberOfRooms, r.value.numberOfRooms, p.numberOfRooms)
    ensures r.Some? ==> Patched(h.hasElectricity, r.value.hasElectricity, p.hasElectricity)
    ensures r.Some? ==> Patched(h.hasWater, r.value.hasWater, p.hasWater)
    ensures r.Some? ==> Patched(h.hasSanitation, r.value.hasSanitation, p.hasSanitation)
    ensures r.Some? ==> Patched(h.status, r.value.status, p.status)
  {
    var address := Pick(p.address, Some(h.address));
    if address.None? then None
    else
      Some(h.(nationalId := Pick(p.nationalId, h.nationalId),
              address := address.value,
              primaryPhone := Pick(p.primaryPhone, h.primaryPhone),
              secondaryPhone := Pick(p.secondaryPhone, h.secondaryPhone),
              dwellingType := Pick(p.dwellingType, h.dwellingType),
              ownershipStatus := Pick(p.ownershipStatus, h.ownershipStatus),
              monthlyRent := Pick(p.monthlyRent, h.monthlyRent),
              numberOfRooms := Pick(p.numberOfRooms, h.numberOfRooms),
              hasElectricity := Pick(p.hasElectricity, h.hasElectricity),
              hasWater := Pick(p.hasWater, h.hasWater),
              hasSanitation := Pick(p.hasSanitation, h.hasSanitation),
              status := Pick(p.status, h.status)))
  }

  /** `update_household_member`'s field-by-field write. The result is `None`
      when the patch nulls a name or the date of birth, NOT NULL columns.
      Every other patched column takes its new value, and the member stays in
      its household. */
  function ApplyMemberPatch(m: Member, p: MemberPatch): (r: Option<Member>)
    ensures r.None? <==> p.firstName == Some(None) || p.lastName == Some(None) || p.dateOfBirth == Some(None)
    ensures r.Some? ==> r.value.id == m.id && r.value.householdId == m.householdId
    ensures r.Some? ==> Patched(m.nationalId, r.value.nationalId, p.nationalId)
    ensures r.Some? ==> Patched(Some(m.firstName), Some(r.value.firstName), p.firstName)
    ensures r.Some? ==> Patched(Some(m.lastName), Some(r.value.lastName), p.lastName)
    ensures r.Some? ==> Patched(Some(m.dateOfBirth), Some(r.value.dateOfBirth), p.dateOfBirth)
    ensures r.Some? ==> Patched(m.gender, r.value.gender, p.gender)
    ensures r.Some? ==> Patched(m.phoneNumber, r.value.phoneNumber, p.phoneNumber)
    ensures r.Some? ==> Patched(m.relationshipToHead, r.value.relationshipToHead, p.relationshipToHead)
    ensures r.Some? ==> Patched(m.maritalStatus, r.value.maritalStatus, p.maritalStatus)
    ensures r.Some? ==> Patched(m.educationLevel, r.value.educationLevel, p.educationLevel)
    ensures r.Some? ==> Patched(m.employmentStatus, r.value.employmentStatus, p.employmentStatus)
    ensures r.Some? ==> Patched(m.monthlyIncome, r.value.monthlyIncome, p.monthlyIncome)
    ensures r.Some? ==> Patched(m.isHouseholdHead, r.value.isHouseholdHead, p.isHouseholdHead)
    ensures r.Some? ==> Patched(m.disabilityStatus, r.value.disabilityStatus, p.disabilityStatus)
  {
    var firstName := Pick(p.firstName, Some(m.firstName));
    var lastName := Pick(p.lastName, Some(m.lastName));
    var dateOfBirth := Pick(p.dateOfBirth, Some(m.dateOfBirth));
    if firstName.None? || lastName.None? || dateOfBirth.None? then None
    else
      Some(m.(nationalId := Pick(p.nationalId, m.nationalId),
              firstName := firstName.value,
              lastName := lastName.value,
              dateOfBirth := dateOfBirth.value,
              gender := Pick(p.gender, m.gender),
              phoneNumber := Pick(p.phoneNumber, m.phoneNumber),
              relationshipToHead := Pick(p.relationshipToHead, m.relationshipToHead),
              maritalStatus := Pick(p.maritalStatus, m.maritalStatus),
              educationLevel := Pick(p.educationLevel, m.educationLevel),
              employmentStatus := Pick(p.employmentStatus, m.employmentStatus),
              monthlyIncome := Pick(p.monthlyIncome, m.monthlyIncome),
              isHouseholdHead := Pick(p.isHouseholdHead, m.isHouseholdHead),
              disabilityStatus := Pick(p.disabilityStatus, m.disabilityStatus)))
  }

  // ---------------------------------------------------------------------------
  // Search: `column ILIKE '%pattern%'`, with ASCII case folding.

  function Lower(c: char): char
  {
    if 'A' <= c <= 'Z' then (c as int - 'A' as int + 'a' as int) as char else c
  }

  function Fold(s: string): (r: string)
    ensures |r| == |s| && forall i :: 0 <= i < |s| ==> r[i] == Lower(s[i])
  {
    if s == [] then [] else [Lower(s[0])] + Fold(s[1..])
  }

  /** `pattern` occurs in `text` starting at position `i`. */
  predicate OccursAt(text: string, pattern: string, i: int)
  {
    0 <= i && i + |pattern| <= |text| && text[i..i + |pattern|] == pattern
  }

  /** Substring search, one starting position after another. */
  function Contains(text: string, pattern: string): (b: bool)
    ensures b <==> exists i :: OccursAt(text, pattern, i)
  {
    if pattern <= text then
      assert OccursAt(text, pattern, 0);
      true
    else if text == [] then
      false
    else
      var b := Contains(text[1..], pattern);
      assert forall i :: OccursAt(text[1..], pattern, i) <==> OccursAt(text, pattern, i + 1);
      assert forall i :: OccursAt(text, pattern, i) ==> i == 0 || OccursAt(text[1..], pattern, i - 1);
      b
  }

  /** `value ILIKE '%pattern%'`. */
  predicate ILike(value: string, pattern: string)
  {
    Contains(Fold(value), Fold(pattern))
  }

  /** The same, on a nullable column: NULL matches nothing. */
  predicate NullableILike(value: Option<string>, pattern: string)
  {
    value.Some? && ILike(value.value, pattern)
  }

  /** A query parameter filters only when it is supplied and not empty. */
  predicate Given(filter: Option<string>)
  {
    filter.Some? && filter.value != ""
  }

  datatype SearchQuery = SearchQuery(nationalId: Option<string>, phone: Option<string>, memberName: Option<string>)

  predicate NationalIdClause(h: Household, pattern: string)
  {
    ILike(h.nationalId, pattern)
  }

  predicate PhoneClause(h: Household, pattern: string)
  {
    NullableILike(h.primaryPhone, pattern) || NullableILike(h.secondaryPhone, pattern)
  }

  /** The join: some member row of `h` has a matching first or last name. */
  predicate MemberNameClause(members: map<int, Member>, h: Household, pattern: string)
  {
    exists id | id in members ::
      members[id].householdId == h.id &&
      (ILike(members[id].firstName, pattern) || ILike(members[id].lastName, pattern))
  }

  /** A household is found exactly when every given filter matches it. */
  predicate Matches(members: map<int, Member>, q: SearchQuery, h: Household)
  {
    && (Given(q.nationalId) ==> NationalIdClause(h, q.nationalId.value))
    && (Given(q.phone) ==> PhoneClause(h, q.phone.value))
    && (Given(q.memberName) ==> MemberNameClause(members, h, q.memberName.value))
  }

  function NationalIdFilter(pattern: string): Household -> bool
  {
    h => NationalIdClause(h, pattern)
  }

  function PhoneFilter(pattern: string): Household -> bool
  {
    h => PhoneClause(h, pattern)
  }

  function MemberNameFilter(members: map<int, Member>, pattern: string): Household -> bool
  {
    h => MemberNameClause(members, h, pattern)
  }

  function MatchesQuery(members: map<int, Member>, q: SearchQuery): Household -> bool
  {
    h => Matches(members, q, h)
  }

  /** `search_households`' query: start from all households and narrow it by
      each given filter in turn. */
  function Search(all: seq<Household>, members: map<int, Member>, q: SearchQuery): seq<Household>
  {
    var byNationalId :=
      if Given(q.nationalId) then Select(all, NationalIdFilter(q.nationalId.value)) else all;
    var byPhone :=
      if Given(q.phone) then Select(byNationalId, PhoneFilter(q.phone.value)) else byNationalId;
    if Given(q.memberName) then Select(byPhone, MemberNameFilter(members, q.memberName.value)) else byPhone
  }

  /** Narrowing by each given filter in turn finds, in store order, exactly the
      households that satisfy all the given filters together. */
  lemma SearchIsConjunction(all: seq<Household>, members: map<int, Member>, q: SearchQuery)
    ensures Search(all, members, q) == Select(all, MatchesQuery(members, q))
  {
    var p1: Household -> bool := h => Given(q.nationalId) ==> NationalIdClause(h, q.nationalId.value);
    var p2: Household -> bool := h => p1(h) && (Given(q.phone) ==> PhoneClause(h, q.phone.value));
    var byNationalId :=
      if Given(q.nationalId) then Select(all, NationalIdFilter(q.nationalId.value)) else all;
    if Given(q.nationalId) {
      SelectExt(all, NationalIdFilter(q.nationalId.value), p1);
    } else {
      SelectAll(all, p1);
    }
    var byPhone :=
      if Given(q.phone) then Select(byNationalId, PhoneFilter(q.phone.value)) else byNationalId;
    if Given(q.phone) {
      SelectSelect(all, p1, PhoneFilter(q.phone.value), p2);
    } else {
      SelectExt(all, p1, p2);
    }
    if Given(q.memberName) {
      SelectSelect(all, p2, MemberNameFilter(members, q.memberName.value), MatchesQuery(members, q));
    } else {
      SelectExt(all, p2, MatchesQuery(members, q));
    }
  }

  /** Matching is insensitive to the case of the pattern and of the column:
      a name matches "ann" exactly when it matches "ANN". */
  lemma {:induction false} ILikeIgnoresCase(value: string, pattern: string)
    ensures ILike(value, pattern) == ILike(Fold(value), Fold(pattern))
  {
    FoldTwice(value);
    FoldTwice(pattern);
  }

  lemma {:induction false} FoldTwice(s: string)
    ensures Fold(Fold(s)) == Fold(s)
  {
    var once := Fold(s);
    assert forall i :: 0 <= i < |s| ==> Fold(once)[i] == once[i];
  }

  /** An example of the member-name filter: "Joanna" contains "ANN". */
  lemma MemberNameExample()
    ensures ILike("Joanna", "ANN")
  {
    assert Fold("Joanna") == "joanna";
    assert Fold("ANN") == "ann";
    assert OccursAt("joanna", "ann", 2);
  }
}
