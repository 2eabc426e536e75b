/** The registry's database and the operations of the user and household
    endpoints on it. Every operation is one transaction: it either commits a new
    state that satisfies the schema's constraints or leaves the store as it was. */
module Registry {
  import opened Common
  import opened Models
  import opened Households
  import opened Users

  class Registry {
    var users: Rows<User>
    var households: Rows<Household>
    var members: Rows<Member>

    /** What every committed state satisfies. */
    ghost predicate Valid()
      reads this
    {
      Store(users.byId, users.order, users.nextId,
        households.byId, households.order, households.nextId,
        members.byId, members.order, members.nextId)
    }

    constructor ()
      ensures Valid()
      ensures users.byId == map[] && households.byId == map[] && members.byId == map[]
    {
      users, households, members := Rows(map[], [], 1), Rows(map[], [], 1), Rows(map[], [], 1);
    }

    // -------------------------------------------------------------------------
    // Users

    /** `create_user`: a taken username is refused before anything is written;
        a taken email is refused by the database at commit. */
    method CreateUser(username: string, email: string, password: string, role: string, hash: string -> string)
      returns (r: Result<User>)
      requires Valid()
      modifies this
      ensures Valid()
      ensures UsernameTaken(old(users.byId), username) ==> r == Err(BadRequest)
      ensures r == Err(StoreError) <==>
        !UsernameTaken(old(users.byId), username) && EmailTaken(old(users.byId), email)
      ensures r.Ok? <==> !UsernameTaken(old(users.byId), username) && !EmailTaken(old(users.byId), email)
      ensures r.Err? ==> r.error in {BadRequest, StoreError} && unchanged(this)
      ensures r.Ok? ==>
        && r.value.id == old(users.nextId) && r.value.id !in old(users.byId)
        && r.value.username == username && r.value.email == email && r.value.role == role
        && r.value.passwordHash == hash(password) && r.value.isActive == Some(DefaultIsActive)
        && users == Inserted(old(users), r.value)
      ensures households == old(households) && members == old(members)
    {
      if UsernameTaken(users.byId, username) {
        return Err(BadRequest);
      }
      var hashed := hash(password);
      var u := NewUser(users.nextId, username, email, hashed, role);
      var candidate := Inserted(users, u).byId;
      if !Consistent(candidate, households.byId, members.byId) {
        assert EmailTaken(users.byId, email) by {
          var a, b :| a in candidate && b in candidate && a != b &&
            (candidate[a].username == candidate[b].username || candidate[a].email == candidate[b].email);
          assert a == u.id || b == u.id;
        }
        return Err(StoreError);
      }
      assert !EmailTaken(users.byId, email) by {
        assert UniqueEmails(candidate);
        forall k | k in users.byId ensures users.byId[k].email != email {
          assert k < u.id && candidate[k] == users.byId[k] && candidate[u.id].email == email;
        }
      }
      UserInsertKeepsStore(users, households, members, u);
      Commit(Inserted(users, u), households, members);
      r := Ok(u);
    }

    /** `read_users_me`: the caller's own record, as it is; the store is not read. */
    method ReadUsersMe(caller: User) returns (r: User)
      ensures r == caller
    {
      r := caller;
    }

    /** `read_users`: admins only; a page of the users in store order. */
    method ReadUsers(caller: User, skip: nat := 0, limit: nat := 100) returns (r: Result<seq<User>>)
      requires Valid()
      ensures r.Err? <==> !CanListUsers(caller.role)
      ensures r.Err? ==> r.error == Forbidden
      ensures r.Ok? ==> |r.value| <= limit
      ensures r.Ok? ==> |r.value| == if skip >= |users.order| then 0 else Min(|users.order| - skip, limit)
      ensures r.Ok? ==> forall i :: 0 <= i < |r.value| ==>
        skip + i < |users.order| && r.value[i] == users.byId[users.order[skip + i]]
    {
      if !CanListUsers(caller.role) {
        return Err(Forbidden);
      }
      r := Ok(Page(Listing(users.byId, users.order), skip, limit));
    }

    /** `update_user`: the ownership gate comes before the lookup, so a
        non-admin asking for someone else is refused even when that user does
        not exist. Only the fields the patch sets are written. */
    method UpdateUser(caller: User, userId: int, patch: UserPatch) returns (r: Result<User>)
      requires Valid()
      modifies this
      ensures Valid()
      ensures !MayUpdateUser(caller, userId) ==> r == Err(Forbidden)
      ensures MayUpdateUser(caller, userId) && userId !in old(users.byId) ==> r == Err(NotFound)
      ensures r == Err(StoreError) <==>
        && MayUpdateUser(caller, userId) && userId in old(users.byId)
        && var patched := PatchUser(old(users.byId)[userId], patch);
           patched.None? ||
           !Consistent(old(users.byId)[userId := patched.value], old(households.byId), old(members.byId))
      ensures r.Ok? <==>
        && MayUpdateUser(caller, userId) && userId in old(users.byId)
        && var patched := PatchUser(old(users.byId)[userId], patch);
           patched.Some? &&
           Consistent(old(users.byId)[userId := patched.value], old(households.byId), old(members.byId))
      ensures r.Err? ==> unchanged(this)
      ensures r.Ok? ==>
        && userId in old(users.byId)
        && PatchUser(old(users.byId)[userId], patch) == Some(r.value)
        && users == old(users).(byId := old(users.byId)[userId := r.value])
      ensures households == old(households) && members == old(members)
    {
      if !MayUpdateUser(caller, userId) {
        return Err(Forbidden);
      }
      if userId !in users.byId {
        return Err(NotFound);
      }
      var patched := PatchUser(users.byId[userId], patch);
      if patched.None? {
        return Err(StoreError);
      }
      var candidate := users.byId[userId := patched.value];
      if !Consistent(candidate, households.byId, members.byId) {
        return Err(StoreError);
      }
      UserUpdateKeepsStore(users.byId, users.order, users.nextId, households.byId, households.order,
        households.nextId, members.byId, members.order, members.nextId, patched.value);
      Commit(users.(byId := candidate), households, members);
      r := Ok(patched.value);
    }

    // -------------------------------------------------------------------------
    // Households

    /** `create_household`: role gate, then the national-id pre-check, then the
        household and its members are inserted and the total accumulated, and
        everything is committed at once or not at all. */
    method CreateHousehold(caller: User, input: HouseholdInput, today: Date) returns (r: Result<Household>)
      requires Valid()
      modifies this
      ensures Valid()
      ensures !CanWriteHouseholds(caller.role) ==> r == Err(Forbidden)
      ensures CanWriteHouseholds(caller.role) && NationalIdTaken(old(households.byId), input.nationalId) ==>
        r == Err(BadRequest)
      ensures r == Err(StoreError) <==>
        && CanWriteHouseholds(caller.role) && !NationalIdTaken(old(households.byId), input.nationalId)
        && !Consistent(
             old(users.byId),
             Inserted(old(households),
               NewHousehold(input, old(households.nextId), today, caller.id, Total(InputIncomes(input.members)))).byId,
             Registered(old(members), input.members, old(households.nextId)).byId)
      ensures r.Ok? <==>
        && CanWriteHouseholds(caller.role) && !NationalIdTaken(old(households.byId), input.nationalId)
        && Consistent(
             old(users.byId),
             Inserted(old(households),
               NewHousehold(input, old(households.nextId), today, caller.id, Total(InputIncomes(input.members)))).byId,
             Registered(old(members), input.members, old(households.nextId)).byId)
      ensures r.Err? ==> unchanged(this)
      ensures r.Ok? ==>
        && r.value == NewHousehold(input, old(households.nextId), today, caller.id, Total(InputIncomes(input.members)))
        && households == Inserted(old(households), r.value)
        && members == Registered(old(members), input.members, r.value.id)
        && MembersOf(members.byId, members.order, r.value.id) == MemberRows(input.members, old(members.nextId), r.value.id)
      ensures users == old(users)
    {
      if !CanWriteHouseholds(caller.role) {
        return Err(Forbidden);
      }
      if NationalIdTaken(households.byId, input.nationalId) {
        return Err(BadRequest);
      }
      var ms, total := InsertMembers(members, input.members, households.nextId);
      var h := NewHousehold(input, households.nextId, today, caller.id, total);
      if !Consistent(users.byId, Inserted(households, h).byId, ms.byId) {
        return Err(StoreError);
      }
      RegistrationKeepsStore(users, households, members, input.members, h, ms);
      RegistrationListing(users.byId, households.byId, members, input.members, h.id, ms);
      Commit(users, Inserted(households, h), ms);
      r := Ok(h);
    }

    /** The commit: the transaction's tables become the store's. */
    method Commit(u: Rows<User>, hs: Rows<Household>, ms: Rows<Member>)
      requires Store(u.byId, u.order, u.nextId, hs.byId, hs.order, hs.nextId, ms.byId, ms.order, ms.nextId)
      modifies this
      ensures Valid()
      ensures users == u && households == hs && members == ms
    {
      users, households, members := u, hs, ms;
    }

    /** The loop of `create_household`: one row per submitted member, in
        input order, each inserted under the next key, while the submitted
        incomes are summed (a missing or zero income adds nothing). */
    static method InsertMembers(t: Rows<Member>, inputs: seq<MemberInput>, hid: int)
      returns (ms: Rows<Member>, total: Cents)
      ensures ms == Registered(t, inputs, hid)
      ensures total == Total(InputIncomes(inputs))
    {
      ms, total := t, 0;
      var i := 0;
      while i < |inputs|
        invariant 0 <= i <= |inputs|
        invariant ms == Registered(t, inputs[..i], hid)
        invariant total == Total(InputIncomes(inputs[..i]))
      {
        RegistrationStep(t, inputs, i, hid);
        ms := Inserted(ms, NewMember(inputs[i], t.nextId + i, hid));
        if inputs[i].monthlyIncome.Some? && inputs[i].monthlyIncome.value != 0 {
          total := total + inputs[i].monthlyIncome.value;
        }
        i := i + 1;
      }
      assert inputs[..i] == inputs;
    }


    /** `get_household`: the household with that id, or 404. */
    method GetHousehold(householdId: int) returns (r: Result<Household>)
      requires Valid()
      ensures r.Ok? <==> householdId in households.byId
      ensures r.Ok? ==> r.value == households.byId[householdId] && r.value.id == householdId
      ensures r.Err? ==> r.error == NotFound
    {
      if householdId !in households.byId {
        return Err(NotFound);
      }
      r := Ok(households.byId[householdId]);
    }

    /** `list_households`: a page of the households in store order. */
    method ListHouseholds(skip: nat := 0, limit: nat := 100) returns (r: seq<Household>)
      requires Valid()
      ensures |r| <= limit
      ensures |r| == if skip >= |households.order| then 0 else Min(|households.order| - skip, limit)
      ensures forall i :: 0 <= i < |r| ==>
        skip + i < |households.order| && r[i] == households.byId[households.order[skip + i]]
    {
      r := Page(Listing(households.byId, households.order), skip, limit);
    }

    /** `update_household`: only the patched columns change; the members and
        the total are left as they are. */
    method UpdateHousehold(caller: User, householdId: int, patch: HouseholdPatch) returns (r: Result<Household>)
      requires Valid()
      modifies this
      ensures Valid()
      ensures !CanWriteHouseholds(caller.role) ==> r == Err(Forbidden)
      ensures CanWriteHouseholds(caller.role) && householdId !in old(households.byId) ==> r == Err(NotFound)
      ensures r == Err(StoreError) <==>
        && CanWriteHouseholds(caller.role) && householdId in old(households.byId)
        && var patched := ApplyHouseholdPatch(old(households.byId)[householdId], patch);
           patched.None? ||
           !Consistent(old(users.byId), old(households.byId)[householdId := patched.value], old(members.byId))
      ensures r.Ok? <==>
        && CanWriteHouseholds(caller.role) && householdId in old(households.byId)
        && var patched := ApplyHouseholdPatch(old(households.byId)[householdId], patch);
           patched.Some? &&
           Consistent(old(users.byId), old(households.byId)[householdId := patched.value], old(members.byId))
      ensures r.Err? ==> unchanged(this)
      ensures r.Ok? ==>
        && householdId in old(households.byId)
        && ApplyHouseholdPatch(old(households.byId)[householdId], patch) == Some(r.value)
        && households == old(households).(byId := old(households.byId)[householdId := r.value])
      ensures users == old(users) && members == old(members)
    {
      if !CanWriteHouseholds(caller.role) {
        return Err(Forbidden);
      }
      if householdId !in households.byId {
        return Err(NotFound);
      }
      var patched := ApplyHouseholdPatch(households.byId[householdId], patch);
      if patched.None? {
        return Err(StoreError);
      }
      var h := patched.value;
      var candidate := households.byId[householdId := h];
      if !Consistent(users.byId, candidate, members.byId) {
        return Err(StoreError);
      }
      HouseholdUpdateKeepsStore(users.byId, users.order, users.nextId, households.byId, households.order,
        households.nextId, members.byId, members.order, members.nextId, h);
      Commit(users, households.(byId := candidate), members);
      r := Ok(h);
    }

    /** `update_household_member`: the member must belong to the named
        household; after the patch the household's total is recomputed from
        all of its members, whichever column changed. */
    method UpdateHouseholdMember(caller: User, householdId: int, memberId: int, patch: MemberPatch)
      returns (r: Result<Member>)
      requires Valid()
      modifies this
      ensures Valid()
      ensures !CanWriteHouseholds(caller.role) ==> r == Err(Forbidden)
      ensures CanWriteHouseholds(caller.role) && !MemberOf(old(members.byId), memberId, householdId) ==>
        r == Err(NotFound)
      ensures r == Err(StoreError) <==>
        && CanWriteHouseholds(caller.role) && MemberOf(old(members.byId), memberId, householdId)
        && var patched := ApplyMemberPatch(old(members.byId)[memberId], patch);
           patched.None? ||
           !Consistent(old(users.byId), old(households.byId), old(members.byId)[memberId := patched.value])
      ensures r.Ok? <==>
        && CanWriteHouseholds(caller.role) && MemberOf(old(members.byId), memberId, householdId)
        && var patched := ApplyMemberPatch(old(members.byId)[memberId], patch);
           patched.Some? &&
           Consistent(old(users.byId), old(households.byId), old(members.byId)[memberId := patched.value])
      ensures r.Err? ==> unchanged(this)
      ensures r.Ok? ==>
        && MemberOf(old(members.byId), memberId, householdId)
        && ApplyMemberPatch(old(members.byId)[memberId], patch) == Some(r.value)
        && members == old(members).(byId := old(members.byId)[memberId := r.value])
        && householdId in old(households.byId) && householdId in households.byId
        && households.byId[householdId].totalMonthlyIncome == HouseholdIncome(members.byId, members.order, householdId)
        && households == old(households).(byId := old(households.byId)[householdId :=
             old(households.byId)[householdId].(totalMonthlyIncome := households.byId[householdId].totalMonthlyIncome)])
      ensures r.Ok? && patch.monthlyIncome.None? ==> households == old(households)
      ensures users == old(users)
    {
      if !CanWriteHouseholds(caller.role) {
        return Err(Forbidden);
      }
      if !MemberOf(members.byId, memberId, householdId) {
        return Err(NotFound);
      }
      var us, hs, ms := users, households, members;
      var patched := ApplyMemberPatch(ms.byId[memberId], patch);
      if patched.None? {
        return Err(StoreError);
      }
      var m := patched.value;
      var total := SumIncomes(ms.byId[memberId := m], ms.order, householdId);
      assert ForeignKeys(us.byId, hs.byId, ms.byId);
      var h := hs.byId[householdId].(totalMonthlyIncome := total);
      ConsistentIgnoresTotal(us.byId, hs.byId, ms.byId[memberId := m], householdId, total);
      if !Consistent(us.byId, hs.byId[householdId := h], ms.byId[memberId := m]) {
        return Err(StoreError);
      }
      MemberUpdateKeepsStore(us.byId, us.order, us.nextId, hs.byId, hs.order, hs.nextId,
        ms.byId, ms.order, ms.nextId, memberId, m, householdId, total);
      if patch.monthlyIncome.None? {
        RecomputeKeepsTotal(hs.byId, ms.byId, ms.order, memberId, m, householdId);
      }
      Commit(us, hs.(byId := hs.byId[householdId := h]), ms.(byId := ms.byId[memberId := m]));
      r := Ok(m);
    }

    /** The recalculation `update_household_member` performs: the incomes of
        the household's rows, a missing income counting as zero. */
    static method SumIncomes(ms: map<int, Member>, order: seq<int>, hid: int) returns (total: Cents)
      ensures total == HouseholdIncome(ms, order, hid)
    {
      total := 0;
      var i := 0;
      while i < |order|
        invariant 0 <= i <= |order|
        invariant total == HouseholdIncome(ms, order[..i], hid)
      {
        var k := order[i];
        HouseholdIncomeStep(ms, order[..i], k, hid);
        assert order[..i + 1] == order[..i] + [k];
        if k in ms && ms[k].householdId == hid {
          total := total + OrZero(ms[k].monthlyIncome);
        }
        i := i + 1;
      }
      assert order[..i] == order;
    }

    /** `search_households`: the households, in store order, that match every
        given filter. */
    method SearchHouseholds(q: SearchQuery) returns (r: seq<Household>)
      requires Valid()
      ensures r == Select(Listing(households.byId, households.order), MatchesQuery(members.byId, q))
      ensures forall h :: h in r <==> h in households.byId.Values && Matches(members.byId, q, h)
    {
      var all := Listing(households.byId, households.order);
      r := Search(all, members.byId, q);
      SearchIsConjunction(all, members.byId, q);
      ListingValues(households.byId, households.order);
    }
  }

  /** The row `memberId` exists and belongs to household `householdId`. */
  predicate MemberOf(members: map<int, Member>, memberId: int, householdId: int)
  {
    memberId in members && members[memberId].householdId == householdId
  }

  /** The next household id has no members yet. */
  lemma NoMembersYet(
    users: map<int, User>, households: map<int, Household>, members: map<int, Member>, memberOrder: seq<int>,
    nextHouseholdId: int)
    requires Consistent(users, households, members)
    requires forall k | k in households :: k < nextHouseholdId
    ensures MembersOf(members, memberOrder, nextHouseholdId) == []
  {
    forall i | 0 <= i < |memberOrder| && memberOrder[i] in members
      ensures members[memberOrder[i]].householdId != nextHouseholdId
    {
      var k := memberOrder[i];
      assert ForeignKeys(users, households, members);
      assert members[k].householdId in households;
    }
    MembersOfNone(members, memberOrder, nextHouseholdId);
  }

  /** Listing the member table after a registration for a household with no
      members yet finds exactly the submitted rows, in input order. */
  lemma RegistrationListing(
    users: map<int, User>, households: map<int, Household>, t: Rows<Member>, inputs: seq<MemberInput>, hid: int,
    r: Rows<Member>)
    requires Consistent(users, households, t.byId)
    requires forall k | k in households :: k < hid
    requires forall i :: 0 <= i < |t.order| ==> t.order[i] < t.nextId
    requires r == Registered(t, inputs, hid)
    ensures MembersOf(r.byId, r.order, hid) == MemberRows(inputs, t.nextId, hid)
  {
    RegisteredById(t, inputs, hid);
    RegisteredOrder(t, inputs, hid);
    RegisteredMembers(t.byId, t.order, inputs, t.nextId, hid, hid);
    NoMembersYet(users, households, t.byId, t.order, hid);
    assert [] + MemberRows(inputs, t.nextId, hid) == MemberRows(inputs, t.nextId, hid);
  }

  /** A sign-up that passes the commit check leaves a committed state. */
  lemma UserInsertKeepsStore(us: Rows<User>, hs: Rows<Household>, ms: Rows<Member>, u: User)
    requires Store(us.byId, us.order, us.nextId, hs.byId, hs.order, hs.nextId, ms.byId, ms.order, ms.nextId)
    requires u.id == us.nextId && Consistent(Inserted(us, u).byId, hs.byId, ms.byId)
    ensures Store(Inserted(us, u).byId, Inserted(us, u).order, Inserted(us, u).nextId,
      hs.byId, hs.order, hs.nextId, ms.byId, ms.order, ms.nextId)
  {
    InsertedTable(us, u);
  }

  /** A user update that keeps the key and passes the commit check leaves a committed state. */
  lemma UserUpdateKeepsStore(
    users: map<int, User>, userOrder: seq<int>, nextUserId: int,
    households: map<int, Household>, householdOrder: seq<int>, nextHouseholdId: int,
    members: map<int, Member>, memberOrder: seq<int>, nextMemberId: int, u: User)
    requires Store(users, userOrder, nextUserId, households, householdOrder, nextHouseholdId,
      members, memberOrder, nextMemberId)
    requires u.id in users && Consistent(users[u.id := u], households, members)
    ensures Store(users[u.id := u], userOrder, nextUserId, households, householdOrder, nextHouseholdId,
      members, memberOrder, nextMemberId)
  {
    TableUpdate(users, userOrder, nextUserId, u.id, u);
  }

  /** A household rewrite that keeps the key and the total and passes the
      commit check leaves a committed state. */
  lemma HouseholdUpdateKeepsStore(
    users: map<int, User>, userOrder: seq<int>, nextUserId: int,
    households: map<int, Household>, householdOrder: seq<int>, nextHouseholdId: int,
    members: map<int, Member>, memberOrder: seq<int>, nextMemberId: int, h: Household)
    requires Store(users, userOrder, nextUserId, households, householdOrder, nextHouseholdId,
      members, memberOrder, nextMemberId)
    requires h.id in households && h.totalMonthlyIncome == households[h.id].totalMonthlyIncome
    requires Consistent(users, households[h.id := h], members)
    ensures Store(users, userOrder, nextUserId, households[h.id := h], householdOrder, nextHouseholdId,
      members, memberOrder, nextMemberId)
  {
    TableUpdate(households, householdOrder, nextHouseholdId, h.id, h);
    assert IncomeConsistent(households[h.id := h], members, memberOrder) by {
      forall id | id in households[h.id := h]
        ensures households[h.id := h][id].totalMonthlyIncome == HouseholdIncome(members, memberOrder, id)
      {
        assert households[id].totalMonthlyIncome == HouseholdIncome(members, memberOrder, id);
      }
    }
  }

  /** A registration that passes the commit check leaves a committed state:
      the new household's total is its members' income, and no other
      household gains a member. */
  lemma RegistrationKeepsStore(
    us: Rows<User>, hs: Rows<Household>, ms: Rows<Member>, inputs: seq<MemberInput>, h: Household, r: Rows<Member>)
    requires Store(us.byId, us.order, us.nextId, hs.byId, hs.order, hs.nextId, ms.byId, ms.order, ms.nextId)
    requires h.id == hs.nextId && h.totalMonthlyIncome == Total(InputIncomes(inputs))
    requires r == Registered(ms, inputs, h.id)
    requires Consistent(us.byId, Inserted(hs, h).byId, r.byId)
    ensures Store(us.byId, us.order, us.nextId, Inserted(hs, h).byId, Inserted(hs, h).order, Inserted(hs, h).nextId,
      r.byId, r.order, r.nextId)
  {
    InsertedTable(hs, h);
    RegisteredTable(ms, inputs, h.id, r);
    RegisteredKeyed(ms, inputs, h.id, r);
    RegisteredIncome(us.byId, hs, ms, inputs, h, r);
  }

  /** After a registration every household's total, the new one's included,
      is the sum of its members' incomes. */
  lemma RegisteredIncome(
    users: map<int, User>, hs: Rows<Household>, ms: Rows<Member>, inputs: seq<MemberInput>, h: Household,
    r: Rows<Member>)
    requires Consistent(users, hs.byId, ms.byId) && IncomeConsistent(hs.byId, ms.byId, ms.order)
    requires h.id == hs.nextId && forall k | k in hs.byId :: k < h.id
    requires forall i :: 0 <= i < |ms.order| ==> ms.order[i] < ms.nextId
    requires h.totalMonthlyIncome == Total(InputIncomes(inputs))
    requires r == Registered(ms, inputs, h.id)
    ensures IncomeConsistent(Inserted(hs, h).byId, r.byId, r.order)
  {
    RegisteredById(ms, inputs, h.id);
    RegisteredOrder(ms, inputs, h.id);
    var households := Inserted(hs, h).byId;
    forall id | id in households
      ensures households[id].totalMonthlyIncome == HouseholdIncome(r.byId, r.order, id)
    {
      RegisteredMembers(ms.byId, ms.order, inputs, ms.nextId, h.id, id);
      if id == h.id {
        NoMembersYet(users, hs.byId, ms.byId, ms.order, h.id);
        assert [] + MemberRows(inputs, ms.nextId, h.id) == MemberRows(inputs, ms.nextId, h.id);
        RegistrationIncome(inputs, ms.nextId, h.id);
      } else {
        assert MembersOf(ms.byId, ms.order, id) + [] == MembersOf(ms.byId, ms.order, id);
        assert hs.byId[id].totalMonthlyIncome == HouseholdIncome(ms.byId, ms.order, id);
      }
    }
  }

  /** A member rewrite that passes the commit check, with its household's
      total recomputed, leaves a committed state. */
  lemma MemberUpdateKeepsStore(
    users: map<int, User>, userOrder: seq<int>, nextUserId: int,
    households: map<int, Household>, householdOrder: seq<int>, nextHouseholdId: int,
    members: map<int, Member>, memberOrder: seq<int>, nextMemberId: int,
    memberId: int, m: Member, hid: int, total: Cents)
    requires Store(users, userOrder, nextUserId, households, householdOrder, nextHouseholdId,
      members, memberOrder, nextMemberId)
    requires memberId in members && members[memberId].householdId == hid && hid in households
    requires m.id == memberId && m.householdId == hid
    requires total == HouseholdIncome(members[memberId := m], memberOrder, hid)
    requires Consistent(users, households[hid := households[hid].(totalMonthlyIncome := total)], members[memberId := m])
    ensures Store(users, userOrder, nextUserId,
      households[hid := households[hid].(totalMonthlyIncome := total)],
      householdOrder, nextHouseholdId, members[memberId := m], memberOrder, nextMemberId)
  {
    TableUpdate(members, memberOrder, nextMemberId, memberId, m);
    TableUpdate(households, householdOrder, nextHouseholdId, hid, households[hid].(totalMonthlyIncome := total));
    RecomputedIncome(households, members, memberOrder, memberId, m, hid);
  }
}
