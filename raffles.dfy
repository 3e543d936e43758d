/** The raffle registry and the membership ledger (convex/raffles.ts). */
module Raffles {
  import opened Seqs
  import opened Text
  import opened Schema

  // ---- createRaffle --------------------------------------------------------

  /** The membership rows createRaffle inserts for a raffle: row i holds
      `sellerIds[i]` with `roles[i]` and takes id `firstId + i`. */
  function InitialMemberships(firstId: nat, raffleId: nat, sellerIds: seq<nat>,
                              roles: seq<Role>, now: nat): seq<MembershipRow>
    requires |sellerIds| <= |roles|
  {
    seq(|sellerIds|, i requires 0 <= i < |sellerIds| =>
      MembershipRow(firstId + i, sellerIds[i], raffleId, roles[i], now))
  }

  /** The rows of a new raffle keep the ledger at one row per pair exactly
      when the supplied seller ids are distinct: createRaffle does not
      deduplicate. */
  lemma CreatedMembershipsUniqueIff(ms: seq<MembershipRow>, firstId: nat, raffleId: nat,
                                    sellerIds: seq<nat>, roles: seq<Role>, now: nat)
    requires |sellerIds| <= |roles|
    requires UniqueMemberships(ms)
    requires forall m :: m in ms ==> m.raffleId != raffleId
    ensures UniqueMemberships(ms + InitialMemberships(firstId, raffleId, sellerIds, roles, now))
            <==> Distinct(sellerIds)
  {
    var added := InitialMemberships(firstId, raffleId, sellerIds, roles, now);
    var all := ms + added;
    if Distinct(sellerIds) {
      forall i, j | 0 <= i < j < |all|
        ensures !IsPair(all[j], all[i].sellerId, all[i].raffleId)
      {
        if j >= |ms| {
          assert all[j] == added[j - |ms|];
          if i < |ms| {
            assert all[i] in ms;
          } else {
            assert all[i] == added[i - |ms|];
          }
        }
      }
    } else {
      var i, j :| 0 <= i < j < |sellerIds| && sellerIds[i] == sellerIds[j];
      assert all[|ms| + i] == added[i] && all[|ms| + j] == added[j];
      assert IsPair(all[|ms| + j], all[|ms| + i].sellerId, all[|ms| + i].raffleId);
    }
  }

  /** With distinct seller ids, every supplied seller ends up holding the
      supplied role in the new raffle, and nobody else holds one there. */
  lemma CreatedRoles(ms: seq<MembershipRow>, firstId: nat, raffleId: nat,
                     sellerIds: seq<nat>, roles: seq<Role>, now: nat)
    requires |sellerIds| <= |roles|
    requires Distinct(sellerIds)
    requires forall m :: m in ms ==> m.raffleId != raffleId
    ensures forall i :: 0 <= i < |sellerIds| ==>
      RoleIn(ms + InitialMemberships(firstId, raffleId, sellerIds, roles, now), sellerIds[i], raffleId)
        == Some(roles[i])
    ensures forall s :: s !in sellerIds ==>
      RoleIn(ms + InitialMemberships(firstId, raffleId, sellerIds, roles, now), s, raffleId) == None
  {
    var added := InitialMemberships(firstId, raffleId, sellerIds, roles, now);
    var all := ms + added;
    forall i | 0 <= i < |sellerIds|
      ensures RoleIn(all, sellerIds[i], raffleId) == Some(roles[i])
    {
      assert IsPair(all[|ms| + i], sellerIds[i], raffleId);
      var k := FindMembership(all, sellerIds[i], raffleId).value;
      assert all[k] == added[k - |ms|];
      assert k == |ms| + i;
    }
    forall s | s !in sellerIds
      ensures RoleIn(all, s, raffleId) == None
    {
      forall m | m in all ensures !IsPair(m, s, raffleId) {
        if m !in ms {
          var k :| 0 <= k < |added| && added[k] == m;
        }
      }
    }
  }

  lemma InitialMembershipsSnoc(firstId: nat, raffleId: nat, sellerIds: seq<nat>,
                               roles: seq<Role>, now: nat, i: nat)
    requires i < |sellerIds| <= |roles|
    ensures InitialMemberships(firstId, raffleId, sellerIds[..i + 1], roles, now)
            == InitialMemberships(firstId, raffleId, sellerIds[..i], roles, now)
               + [MembershipRow(firstId + i, sellerIds[i], raffleId, roles[i], now)]
  {
  }

  /** No membership refers to the id the counter hands out next. */
  lemma FreshRaffleUnreferenced(t: Tables)
    requires ValidTables(t)
    ensures forall m :: m in t.sellerRaffles ==> m.raffleId != t.nextId
  {
    forall m | m in t.sellerRaffles ensures m.raffleId != t.nextId {
      var r :| r in t.raffles && r.id == m.raffleId;
      var k :| 0 <= k < |t.raffles| && t.raffles[k] == r;
    }
  }

  /** The loop of createRaffle: one membership row per supplied seller, in
      order, each taking the next id. */
  method InsertInitialMemberships(db: Db, raffleId: nat, sellerIds: seq<nat>, roles: seq<Role>, now: nat)
    requires db.Valid() && RaffleExists(db.raffles, raffleId)
    requires |sellerIds| <= |roles|
    modifies db
    ensures db.Valid()
    ensures db.sellerRaffles == old(db.sellerRaffles)
                                + InitialMemberships(old(db.nextId), raffleId, sellerIds, roles, now)
    ensures db.nextId == old(db.nextId) + |sellerIds|
    ensures db.sellers == old(db.sellers) && db.raffles == old(db.raffles)
    ensures db.numbers == old(db.numbers) && db.chatMessages == old(db.chatMessages)
  {
    ghost var firstId := db.nextId;
    for i := 0 to |sellerIds|
      invariant db.nextId == firstId + i
      invariant db.sellers == old(db.sellers) && db.raffles == old(db.raffles)
      invariant db.numbers == old(db.numbers) && db.chatMessages == old(db.chatMessages)
      invariant db.sellerRaffles == old(db.sellerRaffles)
                                    + InitialMemberships(firstId, raffleId, sellerIds[..i], roles, now)
      invariant db.Valid()
    {
      InitialMembershipsSnoc(firstId, raffleId, sellerIds, roles, now, i);
      var _ := db.InsertMembership(sellerIds[i], raffleId, roles[i], now);
    }
    assert sellerIds[..|sellerIds|] == sellerIds;
  }

  /** The writes of createRaffle once its arguments are well-formed: the
      raffle in state waiting, then its memberships. */
  method InsertRaffleWithMembers(db: Db, amountOfNumbers: int, price: real, createdBy: nat,
                                 sellerIds: seq<nat>, roles: seq<Role>, now: nat)
    returns (raffleId: nat)
    requires db.Valid() && |sellerIds| <= |roles|
    modifies db
    ensures db.Valid()
    ensures raffleId == old(db.nextId)
    ensures db.raffles == old(db.raffles) + [RaffleRow(raffleId, amountOfNumbers, Waiting, price, now, createdBy)]
    ensures db.sellerRaffles == old(db.sellerRaffles)
                                + InitialMemberships(raffleId + 1, raffleId, sellerIds, roles, now)
    ensures db.nextId == raffleId + 1 + |sellerIds|
    ensures db.sellers == old(db.sellers) && db.numbers == old(db.numbers)
    ensures db.chatMessages == old(db.chatMessages)
    ensures old(UniqueMemberships(db.sellerRaffles)) ==>
      (UniqueMemberships(db.sellerRaffles) <==> Distinct(sellerIds))
    ensures Distinct(sellerIds) ==>
      forall i :: 0 <= i < |sellerIds| ==> RoleIn(db.sellerRaffles, sellerIds[i], raffleId) == Some(roles[i])
  {
    FreshRaffleUnreferenced(db.Snapshot());
    ghost var before := db.sellerRaffles;
    raffleId := db.InsertRaffle(amountOfNumbers, Waiting, price, now, createdBy);
    assert RaffleExists(db.raffles, raffleId) by { assert db.raffles[|db.raffles| - 1].id == raffleId; }
    InsertInitialMemberships(db, raffleId, sellerIds, roles, now);
    if UniqueMemberships(before) {
      CreatedMembershipsUniqueIff(before, raffleId + 1, raffleId, sellerIds, roles, now);
    }
    if Distinct(sellerIds) {
      CreatedRoles(before, raffleId + 1, raffleId, sellerIds, roles, now);
    }
  }

  /** `createRaffle`: inserts the raffle in state waiting, then one
      membership row per supplied seller, and returns the raffle's id. A
      seller without a role makes the insert fail schema validation, and the
      whole mutation is rolled back. */
  method CreateRaffle(db: Db, amountOfNumbers: int, price: real, createdBy: nat,
                      sellerIds: seq<nat>, roles: seq<Role>, now: nat)
    returns (res: Result<nat>)
    requires db.Valid()
    modifies db
    ensures db.Valid()
    ensures |roles| < |sellerIds| ==> res == Err(MissingRole) && db.Snapshot() == old(db.Snapshot())
    ensures |sellerIds| <= |roles| ==> res == Ok(old(db.nextId))
    ensures res.Ok? ==>
      && db.raffles == old(db.raffles) + [RaffleRow(res.value, amountOfNumbers, Waiting, price, now, createdBy)]
      && db.sellerRaffles == old(db.sellerRaffles)
                             + InitialMemberships(res.value + 1, res.value, sellerIds, roles, now)
      && db.nextId == res.value + 1 + |sellerIds|
      && db.sellers == old(db.sellers) && db.numbers == old(db.numbers)
      && db.chatMessages == old(db.chatMessages)
    ensures res.Ok? && old(UniqueMemberships(db.sellerRaffles)) ==>
      (UniqueMemberships(db.sellerRaffles) <==> Distinct(sellerIds))
    ensures res.Ok? && Distinct(sellerIds) ==>
      forall i :: 0 <= i < |sellerIds| ==> RoleIn(db.sellerRaffles, sellerIds[i], res.value) == Some(roles[i])
  {
    if |roles| < |sellerIds| {
      return Err(MissingRole);
    }
    var raffleId := InsertRaffleWithMembers(db, amountOfNumbers, price, createdBy, sellerIds, roles, now);
    res := Ok(raffleId);
  }

  // ---- queries -------------------------------------------------------------

  /** `getRaffle`: the raffle with this id, or none. */
  function GetRaffle(db: Db, raffleId: nat): (r: Option<RaffleRow>)
    reads db
    ensures r.Some? ==> r.value in db.raffles && r.value.id == raffleId
    ensures r.None? <==> !RaffleExists(db.raffles, raffleId)
  {
    match RaffleIndex(db.raffles, raffleId)
    case Some(k) => Some(db.raffles[k])
    case None => None
  }

  /** One entry of `getRafflesBySeller`: the spread raffle (absent when the
      document is missing, `{...null}` being empty) plus the seller's role. */
  datatype RaffleView = RaffleView(raffle: Option<RaffleRow>, role: Role)

  /** The seller's memberships, in table order (the `by_seller` index). */
  function MembershipsOfSeller(ms: seq<MembershipRow>, sellerId: nat): (r: seq<MembershipRow>)
    ensures forall m :: m in r <==> m in ms && m.sellerId == sellerId
  {
    var p := (m: MembershipRow) => m.sellerId == sellerId;
    FilterMembers(ms, p);
    Filter(ms, p)
  }

  /** The raffle's memberships, in table order (the `by_raffle` index). */
  function MembershipsOfRaffle(ms: seq<MembershipRow>, raffleId: nat): (r: seq<MembershipRow>)
    ensures forall m :: m in r <==> m in ms && m.raffleId == raffleId
  {
    var p := (m: MembershipRow) => m.raffleId == raffleId;
    FilterMembers(ms, p);
    Filter(ms, p)
  }

  /** Entry `v` describes membership `m`: same role, and the raffle `m`
      points to when that raffle exists. */
  predicate Describes(v: RaffleView, m: MembershipRow, raffles: seq<RaffleRow>) {
    && v.role == m.role
    && (v.raffle.Some? ==> v.raffle.value in raffles && v.raffle.value.id == m.raffleId)
    && (v.raffle.None? <==> !RaffleExists(raffles, m.raffleId))
  }

  /** `getRafflesBySeller`: one entry per membership of the seller, in index
      order. The `filter(r => r !== null)` of the source removes nothing. */
  function GetRafflesBySeller(db: Db, sellerId: nat): (r: seq<RaffleView>)
    reads db
    ensures |r| == |MembershipsOfSeller(db.sellerRaffles, sellerId)|
    ensures forall i :: 0 <= i < |r| ==>
      MembershipsOfSeller(db.sellerRaffles, sellerId)[i].sellerId == sellerId
      && Describes(r[i], MembershipsOfSeller(db.sellerRaffles, sellerId)[i], db.raffles)
  {
    var ms := MembershipsOfSeller(db.sellerRaffles, sellerId);
    assert forall i :: 0 <= i < |ms| ==> ms[i] in ms && ms[i].sellerId == sellerId;
    seq(|ms|, i requires 0 <= i < |ms| reads db => RaffleView(GetRaffle(db, ms[i].raffleId), ms[i].role))
  }

  /** Memberships only ever point at raffles that exist, so no entry of
      `getRafflesBySeller` lacks its raffle. */
  lemma RafflesOfSellerComplete(db: Db, sellerId: nat)
    requires db.Valid()
    ensures forall v :: v in GetRafflesBySeller(db, sellerId) ==> v.raffle.Some?
  {
    var r := GetRafflesBySeller(db, sellerId);
    var ms := MembershipsOfSeller(db.sellerRaffles, sellerId);
    forall v | v in r ensures v.raffle.Some? {
      var i :| 0 <= i < |r| && r[i] == v;
      assert ms[i] in ms;
    }
  }

  /** One entry of `getSellersByRaffle`: the spread seller plus its role. */
  datatype SellerView = SellerView(seller: SellerRow, role: Role)

  /** The entry one membership contributes: its seller document with the
      membership's role, or nothing when the document is missing. */
  function SellerViewOf(sellers: seq<SellerRow>, m: MembershipRow): (r: seq<SellerView>)
    ensures |r| <= 1
  {
    match SellerById(sellers, m.sellerId)
    case Some(s) => [SellerView(s, m.role)]
    case None => []
  }

  /** The seller documents of the memberships `ms`, in order, skipping a
      membership whose seller document is missing. */
  function SellerViews(sellers: seq<SellerRow>, ms: seq<MembershipRow>): (r: seq<SellerView>)
    ensures |r| <= |ms|
  {
    if ms == [] then [] else SellerViewOf(sellers, ms[0]) + SellerViews(sellers, ms[1..])
  }

  /** Every entry is an existing seller with the role of one of its
      memberships, and every membership whose seller exists has its entry. */
  lemma {:induction false} SellerViewsMembers(sellers: seq<SellerRow>, ms: seq<MembershipRow>)
    ensures forall v :: v in SellerViews(sellers, ms) ==>
      v.seller in sellers && exists m :: m in ms && m.sellerId == v.seller.id && m.role == v.role
    ensures forall m :: m in ms && SellerById(sellers, m.sellerId).Some? ==>
      SellerView(SellerById(sellers, m.sellerId).value, m.role) in SellerViews(sellers, ms)
  {
    if ms != [] {
      SellerViewsMembers(sellers, ms[1..]);
      assert forall m :: m in ms ==> m == ms[0] || m in ms[1..];
    }
  }

  lemma SellerViewsUnfold(sellers: seq<SellerRow>, ms: seq<MembershipRow>)
    requires ms != []
    ensures SellerViews(sellers, ms) == SellerViewOf(sellers, ms[0]) + SellerViews(sellers, ms[1..])
  {
  }

  /** The views are built membership by membership, in order: the views of
      two runs of memberships are the views of each run, one after the other. */
  lemma {:induction false} SellerViewsConcat(sellers: seq<SellerRow>, a: seq<MembershipRow>,
                                             b: seq<MembershipRow>)
    ensures SellerViews(sellers, a + b) == SellerViews(sellers, a) + SellerViews(sellers, b)
  {
    if a == [] {
      assert a + b == b;
    } else {
      var head := SellerViewOf(sellers, a[0]);
      assert (a + b)[0] == a[0];
      assert (a + b)[1..] == a[1..] + b;
      SellerViewsUnfold(sellers, a + b);
      SellerViewsUnfold(sellers, a);
      SellerViewsConcat(sellers, a[1..], b);
      assert head + (SellerViews(sellers, a[1..]) + SellerViews(sellers, b))
          == (head + SellerViews(sellers, a[1..])) + SellerViews(sellers, b);
    }
  }

  /** One membership gives one entry when its seller exists, none otherwise;
      duplicate memberships therefore give repeated entries. */
  lemma SellerViewsSingle(sellers: seq<SellerRow>, m: MembershipRow)
    ensures SellerViews(sellers, [m]) ==
      match SellerById(sellers, m.sellerId)
      case Some(s) => [SellerView(s, m.role)]
      case None => []
  {
    SellerViewsUnfold(sellers, [m]);
    assert [m][1..] == [];
  }

  /** `getSellersByRaffle`: the members of the raffle whose seller document
      exists, each with its role. */
  function GetSellersByRaffle(db: Db, raffleId: nat): (r: seq<SellerView>)
    reads db
    ensures forall v :: v in r ==>
      v.seller in db.sellers
      && exists m :: m in db.sellerRaffles && IsPair(m, v.seller.id, raffleId) && m.role == v.role
    ensures forall m :: m in db.sellerRaffles && m.raffleId == raffleId
                        && SellerById(db.sellers, m.sellerId).Some? ==>
      SellerView(SellerById(db.sellers, m.sellerId).value, m.role) in r
  {
    var ms := MembershipsOfRaffle(db.sellerRaffles, raffleId);
    SellerViewsMembers(db.sellers, ms);
    SellerViews(db.sellers, ms)
  }

  predicate NameMatches(s: SellerRow, termLower: string) {
    Contains(ToLower(s.name), termLower)
  }

  /** `searchSellers`: nothing for a blank term, otherwise every seller
      whose lower-cased name contains the lower-cased term, in table order. */
  function SearchSellers(db: Db, searchTerm: string): (r: seq<SellerRow>)
    reads db
    ensures Trim(searchTerm) == [] ==> r == []
    ensures Trim(searchTerm) != [] ==>
      forall s :: s in r <==> s in db.sellers && Contains(ToLower(s.name), ToLower(searchTerm))
  {
    if Trim(searchTerm) == [] then []
    else
      var p := (s: SellerRow) => NameMatches(s, ToLower(searchTerm));
      FilterMembers(db.sellers, p);
      Filter(db.sellers, p)
  }

  /** `getSellerRole`: the role of the pair's membership, or none. When the
      ledger has one row per pair, that role is the role of every row of the
      pair. */
  function GetSellerRole(db: Db, sellerId: nat, raffleId: nat): (r: Option<Role>)
    reads db
    ensures r.None? <==> forall m :: m in db.sellerRaffles ==> !IsPair(m, sellerId, raffleId)
    ensures UniqueMemberships(db.sellerRaffles) ==>
      forall m :: m in db.sellerRaffles && IsPair(m, sellerId, raffleId) ==> r == Some(m.role)
  {
    var r := RoleIn(db.sellerRaffles, sellerId, raffleId);
    assert UniqueMemberships(db.sellerRaffles) ==>
      forall m :: m in db.sellerRaffles && IsPair(m, sellerId, raffleId) ==> r == Some(m.role) by {
      if UniqueMemberships(db.sellerRaffles) {
        forall m | m in db.sellerRaffles && IsPair(m, sellerId, raffleId) ensures r == Some(m.role) {
          var j :| 0 <= j < |db.sellerRaffles| && db.sellerRaffles[j] == m;
          var k := FindMembership(db.sellerRaffles, sellerId, raffleId).value;
          assert !(k < j) && !(j < k);
        }
      }
    }
    r
  }

  // ---- membership management ----------------------------------------------

  /** Patching the role of the pair's first row keeps it the pair's first row. */
  lemma PatchedMembershipFound(ms: seq<MembershipRow>, k: nat, sellerId: nat, raffleId: nat, role: Role)
    requires FindMembership(ms, sellerId, raffleId) == Some(k)
    ensures FindMembership(ms[k := ms[k].(role := role)], sellerId, raffleId) == Some(k)
    ensures UniqueMemberships(ms) ==> UniqueMemberships(ms[k := ms[k].(role := role)])
  {
    var ms' := ms[k := ms[k].(role := role)];
    var f := FindMembership(ms', sellerId, raffleId);
    assert IsPair(ms'[k], sellerId, raffleId);
    assert f.value == k;
  }

  /** A row appended for a pair that had none is that pair's first row. */
  lemma AppendedMembershipFound(ms: seq<MembershipRow>, row: MembershipRow)
    requires FindMembership(ms, row.sellerId, row.raffleId).None?
    ensures FindMembership(ms + [row], row.sellerId, row.raffleId) == Some(|ms|)
    ensures UniqueMemberships(ms) ==> UniqueMemberships(ms + [row])
  {
    var all := ms + [row];
    var f := FindMembership(all, row.sellerId, row.raffleId);
    assert IsPair(all[|ms|], row.sellerId, row.raffleId);
    assert f.value == |ms|;
    if UniqueMemberships(ms) {
      forall i, j | 0 <= i < j < |all| ensures !IsPair(all[j], all[i].sellerId, all[i].raffleId) {
        if j == |ms| { assert all[i] == ms[i]; }
      }
    }
  }

  /** Deleting the pair's first row leaves no row for the pair when the
      ledger had one row per pair, and keeps it at one row per pair. */
  lemma DeletedMembershipGone(ms: seq<MembershipRow>, k: nat, sellerId: nat, raffleId: nat)
    requires FindMembership(ms, sellerId, raffleId) == Some(k)
    ensures UniqueMemberships(ms) ==> RoleIn(RemoveAt(ms, k), sellerId, raffleId) == None
    ensures UniqueMemberships(ms) ==> UniqueMemberships(RemoveAt(ms, k))
  {
    var ms' := RemoveAt(ms, k);
    if UniqueMemberships(ms) {
      forall m | m in ms' ensures !IsPair(m, sellerId, raffleId) {
        var i :| 0 <= i < |ms'| && ms'[i] == m;
        if i >= k { assert m == ms[i + 1]; }
      }
      forall i, j | 0 <= i < j < |ms'| ensures !IsPair(ms'[j], ms'[i].sellerId, ms'[i].raffleId) {
        var i' := if i < k then i else i + 1;
        var j' := if j < k then j else j + 1;
        assert ms'[i] == ms[i'] && ms'[j] == ms[j'];
      }
    }
  }

  /** `assignSellerToRaffle`: an owner or moderator of the raffle sets the
      seller's role there, patching the existing row (an idempotent upsert)
      or inserting a new one, and gets that row's id back. */
  method AssignSellerToRaffle(db: Db, sellerId: nat, raffleId: nat, role: Role,
                              requesterId: nat, now: nat)
    returns (res: Result<nat>)
    requires db.Valid()
    modifies db
    ensures db.Valid()
    ensures !old(MayManage(db.sellerRaffles, requesterId, raffleId)) ==>
      res == Err(NoPermissionToManageSellers) && db.Snapshot() == old(db.Snapshot())
    ensures old(MayManage(db.sellerRaffles, requesterId, raffleId))
            && old(FindMembership(db.sellerRaffles, sellerId, raffleId)).Some? ==>
      var k := old(FindMembership(db.sellerRaffles, sellerId, raffleId)).value;
      && res == Ok(old(db.sellerRaffles[k].id))
      && db.Snapshot() == old(db.Snapshot()).(
           sellerRaffles := old(db.sellerRaffles)[k := old(db.sellerRaffles[k]).(role := role)])
    ensures old(MayManage(db.sellerRaffles, requesterId, raffleId))
            && old(FindMembership(db.sellerRaffles, sellerId, raffleId)).None? ==>
      && res == Ok(old(db.nextId))
      && db.Snapshot() == old(db.Snapshot()).(
           sellerRaffles := old(db.sellerRaffles) + [MembershipRow(res.value, sellerId, raffleId, role, now)],
           nextId := res.value + 1)
    ensures res.Ok? ==> RoleIn(db.sellerRaffles, sellerId, raffleId) == Some(role)
    ensures old(UniqueMemberships(db.sellerRaffles)) ==> UniqueMemberships(db.sellerRaffles)
  {
    if !MayManage(db.sellerRaffles, requesterId, raffleId) {
      return Err(NoPermissionToManageSellers);
    }
    var existing := FindMembership(db.sellerRaffles, sellerId, raffleId);
    if existing.Some? {
      var k := existing.value;
      var id := db.sellerRaffles[k].id;
      db.PatchRole(k, role);
      PatchedMembershipFound(old(db.sellerRaffles), k, sellerId, raffleId, role);
      return Ok(id);
    }
    assert RaffleExists(db.raffles, raffleId) by {
      var m := db.sellerRaffles[FindMembership(db.sellerRaffles, requesterId, raffleId).value];
      assert m in db.sellerRaffles;
    }
    var id := db.InsertMembership(sellerId, raffleId, role, now);
    AppendedMembershipFound(old(db.sellerRaffles), MembershipRow(id, sellerId, raffleId, role, now));
    res := Ok(id);
  }

  /** `removeSellerFromRaffle`: an owner or moderator of the raffle deletes
      the seller's membership row; an owner may not remove itself; a missing
      row is a silent no-op. */
  method RemoveSellerFromRaffle(db: Db, sellerId: nat, raffleId: nat, requesterId: nat)
    returns (res: Result<()>)
    requires db.Valid()
    modifies db
    ensures db.Valid()
    ensures !old(MayManage(db.sellerRaffles, requesterId, raffleId)) ==>
      res == Err(NoPermissionToManageSellers) && db.Snapshot() == old(db.Snapshot())
    ensures old(MayManage(db.sellerRaffles, requesterId, raffleId)) && sellerId == requesterId
            && old(RoleIn(db.sellerRaffles, requesterId, raffleId)) == Some(Owner) ==>
      res == Err(CannotRemoveSelfAsOwner) && db.Snapshot() == old(db.Snapshot())
    ensures old(MayManage(db.sellerRaffles, requesterId, raffleId))
            && !(sellerId == requesterId && old(RoleIn(db.sellerRaffles, requesterId, raffleId)) == Some(Owner)) ==>
      && res == Ok(())
      && db.Snapshot() == old(db.Snapshot()).(sellerRaffles :=
           match old(FindMembership(db.sellerRaffles, sellerId, raffleId))
           case Some(k) => RemoveAt(old(db.sellerRaffles), k)
           case None => old(db.sellerRaffles))
    ensures res.Ok? && old(UniqueMemberships(db.sellerRaffles)) ==>
      RoleIn(db.sellerRaffles, sellerId, raffleId) == None
    ensures old(UniqueMemberships(db.sellerRaffles)) ==> UniqueMemberships(db.sellerRaffles)
  {
    if !MayManage(db.sellerRaffles, requesterId, raffleId) {
      return Err(NoPermissionToManageSellers);
    }
    if sellerId == requesterId && RoleIn(db.sellerRaffles, requesterId, raffleId) == Some(Owner) {
      return Err(CannotRemoveSelfAsOwner);
    }
    var target := FindMembership(db.sellerRaffles, sellerId, raffleId);
    if target.Some? {
      var k := target.value;
      DeletedMembershipGone(db.sellerRaffles, k, sellerId, raffleId);
      db.DeleteMembership(k);
    }
    res := Ok(());
  }

  /** `updateRaffleState`: an owner or moderator of the raffle sets its
      state to any of the three values; there is no transition graph. */
  method UpdateRaffleState(db: Db, raffleId: nat, state: RaffleState, sellerId: nat)
    returns (res: Result<()>)
    requires db.Valid()
    modifies db
    ensures db.Valid()
    ensures !old(MayManage(db.sellerRaffles, sellerId, raffleId)) ==>
      res == Err(NoPermissionToChangeState) && db.Snapshot() == old(db.Snapshot())
    ensures old(MayManage(db.sellerRaffles, sellerId, raffleId)) ==>
      && res == Ok(())
      && old(RaffleIndex(db.raffles, raffleId)).Some?
      && var k := old(RaffleIndex(db.raffles, raffleId)).value;
         db.Snapshot() == old(db.Snapshot()).(raffles := old(db.raffles)[k := old(db.raffles[k]).(state := state)])
    ensures res.Ok? ==> GetRaffle(db, raffleId).Some? && GetRaffle(db, raffleId).value.state == state
  {
    if !MayManage(db.sellerRaffles, sellerId, raffleId) {
      return Err(NoPermissionToChangeState);
    }
    var m := db.sellerRaffles[FindMembership(db.sellerRaffles, sellerId, raffleId).value];
    assert m in db.sellerRaffles;
    var index := RaffleIndex(db.raffles, raffleId);
    if index.None? {
      return Err(RaffleNotFound);
    }
    var k := index.value;
    db.PatchState(k, state);
    assert db.raffles[k] in db.raffles;
    res := Ok(());
  }
}
