/** The five tables of the backend (record shapes of convex/schema.ts), the
    store that holds them, the role and state enumerations, the errors the
    mutations throw, and the index lookups every operation shares. */
module Schema {
  import opened Seqs

  datatype Role = Owner | Moderator | Seller
  datatype RaffleState = Waiting | Started | Complete

  /** Document ids are nats; every table draws them from one counter. */
  datatype SellerRow = SellerRow(id: nat, name: string, createdAt: nat)
  datatype RaffleRow = RaffleRow(id: nat, amountOfNumbers: int, state: RaffleState,
                                 price: real, createdAt: nat, createdBy: nat)
  datatype MembershipRow = MembershipRow(id: nat, sellerId: nat, raffleId: nat,
                                         role: Role, createdAt: nat)
  datatype NumberRow = NumberRow(id: nat, number: string, raffleId: nat, sellerId: nat,
                                 buyerName: string, buyerContact: string, createdAt: nat)
  datatype ChatMessageRow = ChatMessageRow(id: nat, raffleId: nat, sellerId: nat,
                                           message: string, createdAt: nat)

  /** One constructor per `throw new Error(...)` of the mutations, plus the
      two failures the database layer raises (patching a missing document,
      inserting a membership whose role is undefined). */
  datatype Error =
    | NoPermissionToManageSellers
    | CannotRemoveSelfAsOwner
    | NoPermissionToChangeState
    | NumberAlreadyRegistered
    | NoAccessToRaffle
    | EmptyMessage
    | RaffleNotFound
    | MissingRole

  datatype Result<+T> = Ok(value: T) | Err(error: Error)

  /** The capability checked by every membership or raffle-state change. */
  predicate CanManage(role: Role) {
    role == Owner || role == Moderator
  }

  /** The whole database as one value, for stating what a mutation leaves alone. */
  datatype Tables = Tables(sellers: seq<SellerRow>, raffles: seq<RaffleRow>,
                           sellerRaffles: seq<MembershipRow>, numbers: seq<NumberRow>,
                           chatMessages: seq<ChatMessageRow>, nextId: nat)

  // ---- index lookups -------------------------------------------------------

  predicate IsPair(m: MembershipRow, sellerId: nat, raffleId: nat) {
    m.sellerId == sellerId && m.raffleId == raffleId
  }

  /** `sellerRaffles.withIndex("by_seller_and_raffle", ...).first()`: the
      position of the oldest membership row of the pair. */
  function FindMembership(ms: seq<MembershipRow>, sellerId: nat, raffleId: nat): (r: Option<nat>)
    ensures r.Some? ==> r.value < |ms| && IsPair(ms[r.value], sellerId, raffleId)
    ensures r.Some? ==> forall j :: 0 <= j < r.value ==> !IsPair(ms[j], sellerId, raffleId)
    ensures r.None? <==> forall j :: 0 <= j < |ms| ==> !IsPair(ms[j], sellerId, raffleId)
  {
    FirstIndex(ms, (m: MembershipRow) => IsPair(m, sellerId, raffleId))
  }

  /** The role of the pair's membership row, the authorization primitive. */
  function RoleIn(ms: seq<MembershipRow>, sellerId: nat, raffleId: nat): (r: Option<Role>)
    ensures r.None? <==> forall m :: m in ms ==> !IsPair(m, sellerId, raffleId)
    ensures r.Some? ==> exists m :: m in ms && IsPair(m, sellerId, raffleId) && m.role == r.value
  {
    match FindMembership(ms, sellerId, raffleId)
    case Some(k) => Some(ms[k].role)
    case None => None
  }

  /** The gate of every management operation: the requester's membership
      row in the raffle exists and has role owner or moderator. */
  predicate MayManage(ms: seq<MembershipRow>, requesterId: nat, raffleId: nat) {
    var r := RoleIn(ms, requesterId, raffleId);
    r.Some? && CanManage(r.value)
  }

  /** At most one membership row per (seller, raffle) pair. */
  predicate UniqueMemberships(ms: seq<MembershipRow>) {
    forall i, j :: 0 <= i < j < |ms| ==> !IsPair(ms[j], ms[i].sellerId, ms[i].raffleId)
  }

  /** At most one number row per (raffle, number) pair. */
  predicate UniqueNumbers(ns: seq<NumberRow>) {
    forall i, j :: 0 <= i < j < |ns| ==>
      !(ns[i].raffleId == ns[j].raffleId && ns[i].number == ns[j].number)
  }

  /** At most one seller per name. */
  predicate UniqueNames(ss: seq<SellerRow>) {
    forall i, j :: 0 <= i < j < |ss| ==> ss[i].name != ss[j].name
  }

  predicate RaffleExists(raffles: seq<RaffleRow>, id: nat) {
    exists r :: r in raffles && r.id == id
  }

  /** `ctx.db.get(id)` on the sellers table. */
  function SellerById(sellers: seq<SellerRow>, id: nat): (r: Option<SellerRow>)
    ensures r.Some? ==> r.value in sellers && r.value.id == id
    ensures r.None? <==> forall s :: s in sellers ==> s.id != id
  {
    match FirstIndex(sellers, (s: SellerRow) => s.id == id)
    case Some(k) => Some(sellers[k])
    case None => None
  }

  /** Position of the raffle with this id, for `ctx.db.get` and `ctx.db.patch`. */
  function RaffleIndex(raffles: seq<RaffleRow>, id: nat): (r: Option<nat>)
    ensures r.Some? ==> r.value < |raffles| && raffles[r.value].id == id
    ensures r.None? <==> !RaffleExists(raffles, id)
  {
    FirstIndex(raffles, (x: RaffleRow) => x.id == id)
  }

  /** Every key drawn by `key` is below `bound` and no two rows share one. */
  predicate KeyedBelow<T>(t: seq<T>, key: T -> nat, bound: nat) {
    && (forall i :: 0 <= i < |t| ==> key(t[i]) < bound)
    && (forall i, j :: 0 <= i < j < |t| ==> key(t[i]) != key(t[j]))
  }

  /** What every operation keeps true: ids are unique and come from the
      counter, seller names and (raffle, number) pairs are unique (each is
      checked by its only writer), and every membership, number and chat
      row refers to a raffle that exists. Unique (seller, raffle)
      memberships are not part of it: createRaffle does not deduplicate. */
  ghost predicate ValidTables(t: Tables) {
    && KeyedBelow(t.sellers, (s: SellerRow) => s.id, t.nextId)
    && KeyedBelow(t.raffles, (r: RaffleRow) => r.id, t.nextId)
    && KeyedBelow(t.sellerRaffles, (m: MembershipRow) => m.id, t.nextId)
    && KeyedBelow(t.numbers, (n: NumberRow) => n.id, t.nextId)
    && KeyedBelow(t.chatMessages, (c: ChatMessageRow) => c.id, t.nextId)
    && UniqueNames(t.sellers)
    && UniqueNumbers(t.numbers)
    && (forall m :: m in t.sellerRaffles ==> RaffleExists(t.raffles, m.raffleId))
    && (forall n :: n in t.numbers ==> RaffleExists(t.raffles, n.raffleId))
    && (forall c :: c in t.chatMessages ==> RaffleExists(t.raffles, c.raffleId))
  }

  // ---- one lemma per kind of write, each showing the invariant survives --

  lemma KeyedAppend<T>(t: seq<T>, key: T -> nat, bound: nat, x: T)
    requires KeyedBelow(t, key, bound) && key(x) == bound
    ensures KeyedBelow(t + [x], key, bound + 1)
  {
  }

  lemma KeyedRaise<T>(t: seq<T>, key: T -> nat, bound: nat, bound': nat)
    requires KeyedBelow(t, key, bound) && bound <= bound'
    ensures KeyedBelow(t, key, bound')
  {
  }

  lemma ValidAfterNewSeller(t: Tables, s: SellerRow)
    requires ValidTables(t) && s.id == t.nextId
    requires forall x :: x in t.sellers ==> x.name != s.name
    ensures ValidTables(t.(sellers := t.sellers + [s], nextId := t.nextId + 1))
  {
    var t' := t.(sellers := t.sellers + [s], nextId := t.nextId + 1);
    KeyedAppend(t.sellers, (s: SellerRow) => s.id, t.nextId, s);
    KeyedRaise(t.raffles, (r: RaffleRow) => r.id, t.nextId, t'.nextId);
    KeyedRaise(t.sellerRaffles, (m: MembershipRow) => m.id, t.nextId, t'.nextId);
    KeyedRaise(t.numbers, (n: NumberRow) => n.id, t.nextId, t'.nextId);
    KeyedRaise(t.chatMessages, (c: ChatMessageRow) => c.id, t.nextId, t'.nextId);
    assert UniqueNames(t'.sellers) by {
      forall i, j | 0 <= i < j < |t'.sellers| ensures t'.sellers[i].name != t'.sellers[j].name {
        if j == |t.sellers| { assert t'.sellers[i] in t.sellers; }
      }
    }
  }

  lemma ValidAfterNewRaffle(t: Tables, r: RaffleRow)
    requires ValidTables(t) && r.id == t.nextId
    ensures ValidTables(t.(raffles := t.raffles + [r], nextId := t.nextId + 1))
  {
    var t' := t.(raffles := t.raffles + [r], nextId := t.nextId + 1);
    KeyedRaise(t.sellers, (s: SellerRow) => s.id, t.nextId, t'.nextId);
    KeyedAppend(t.raffles, (r: RaffleRow) => r.id, t.nextId, r);
    KeyedRaise(t.sellerRaffles, (m: MembershipRow) => m.id, t.nextId, t'.nextId);
    KeyedRaise(t.numbers, (n: NumberRow) => n.id, t.nextId, t'.nextId);
    KeyedRaise(t.chatMessages, (c: ChatMessageRow) => c.id, t.nextId, t'.nextId);
    assert forall x :: x in t.raffles ==> x in t'.raffles;
  }

  lemma ValidAfterNewMembership(t: Tables, m: MembershipRow)
    requires ValidTables(t) && m.id == t.nextId && RaffleExists(t.raffles, m.raffleId)
    ensures ValidTables(t.(sellerRaffles := t.sellerRaffles + [m], nextId := t.nextId + 1))
  {
    var t' := t.(sellerRaffles := t.sellerRaffles + [m], nextId := t.nextId + 1);
    KeyedRaise(t.sellers, (s: SellerRow) => s.id, t.nextId, t'.nextId);
    KeyedRaise(t.raffles, (r: RaffleRow) => r.id, t.nextId, t'.nextId);
    KeyedAppend(t.sellerRaffles, (m: MembershipRow) => m.id, t.nextId, m);
    KeyedRaise(t.numbers, (n: NumberRow) => n.id, t.nextId, t'.nextId);
    KeyedRaise(t.chatMessages, (c: ChatMessageRow) => c.id, t.nextId, t'.nextId);
  }

  lemma ValidAfterNewNumber(t: Tables, n: NumberRow)
    requires ValidTables(t) && n.id == t.nextId && RaffleExists(t.raffles, n.raffleId)
    requires forall x :: x in t.numbers ==> !(x.raffleId == n.raffleId && x.number == n.number)
    ensures ValidTables(t.(numbers := t.numbers + [n], nextId := t.nextId + 1))
  {
    var t' := t.(numbers := t.numbers + [n], nextId := t.nextId + 1);
    KeyedRaise(t.sellers, (s: SellerRow) => s.id, t.nextId, t'.nextId);
    KeyedRaise(t.raffles, (r: RaffleRow) => r.id, t.nextId, t'.nextId);
    KeyedRaise(t.sellerRaffles, (m: MembershipRow) => m.id, t.nextId, t'.nextId);
    KeyedAppend(t.numbers, (n: NumberRow) => n.id, t.nextId, n);
    KeyedRaise(t.chatMessages, (c: ChatMessageRow) => c.id, t.nextId, t'.nextId);
    assert UniqueNumbers(t'.numbers) by {
      forall i, j | 0 <= i < j < |t'.numbers|
        ensures !(t'.numbers[i].raffleId == t'.numbers[j].raffleId && t'.numbers[i].number == t'.numbers[j].number)
      {
        if j == |t.numbers| { assert t'.numbers[i] in t.numbers; }
      }
    }
  }

  lemma ValidAfterNewMessage(t: Tables, c: ChatMessageRow)
    requires ValidTables(t) && c.id == t.nextId && RaffleExists(t.raffles, c.raffleId)
    ensures ValidTables(t.(chatMessages := t.chatMessages + [c], nextId := t.nextId + 1))
  {
    var t' := t.(chatMessages := t.chatMessages + [c], nextId := t.nextId + 1);
    KeyedRaise(t.sellers, (s: SellerRow) => s.id, t.nextId, t'.nextId);
    KeyedRaise(t.raffles, (r: RaffleRow) => r.id, t.nextId, t'.nextId);
    KeyedRaise(t.sellerRaffles, (m: MembershipRow) => m.id, t.nextId, t'.nextId);
    KeyedRaise(t.numbers, (n: NumberRow) => n.id, t.nextId, t'.nextId);
    KeyedAppend(t.chatMessages, (c: ChatMessageRow) => c.id, t.nextId, c);
  }

  lemma ValidAfterRolePatch(t: Tables, k: nat, role: Role)
    requires ValidTables(t) && k < |t.sellerRaffles|
    ensures ValidTables(t.(sellerRaffles := t.sellerRaffles[k := t.sellerRaffles[k].(role := role)]))
  {
    var ms' := t.sellerRaffles[k := t.sellerRaffles[k].(role := role)];
    assert forall m :: m in ms' ==> m in t.sellerRaffles || m == t.sellerRaffles[k].(role := role);
  }

  lemma ValidAfterMembershipDelete(t: Tables, k: nat)
    requires ValidTables(t) && k < |t.sellerRaffles|
    ensures ValidTables(t.(sellerRaffles := RemoveAt(t.sellerRaffles, k)))
  {
    var ms' := RemoveAt(t.sellerRaffles, k);
    assert forall m :: m in ms' ==> m in t.sellerRaffles;
  }

  lemma ValidAfterStatePatch(t: Tables, k: nat, state: RaffleState)
    requires ValidTables(t) && k < |t.raffles|
    ensures ValidTables(t.(raffles := t.raffles[k := t.raffles[k].(state := state)]))
  {
    var rs' := t.raffles[k := t.raffles[k].(state := state)];
    forall id | RaffleExists(t.raffles, id) ensures RaffleExists(rs', id) {
      var x :| x in t.raffles && x.id == id;
      var i :| 0 <= i < |t.raffles| && t.raffles[i] == x;
      assert rs'[i] in rs';
    }
  }

  /** The Convex database of one deployment. */
  class Db {
    var sellers: seq<SellerRow>
    var raffles: seq<RaffleRow>
    var sellerRaffles: seq<MembershipRow>
    var numbers: seq<NumberRow>
    var chatMessages: seq<ChatMessageRow>
    /** The next document id to hand out. */
    var nextId: nat

    constructor ()
      ensures Valid()
      ensures Snapshot() == Tables([], [], [], [], [], 0)
    {
      sellers, raffles, sellerRaffles, numbers, chatMessages := [], [], [], [], [];
      nextId := 0;
    }

    function Snapshot(): Tables
      reads this
    {
      Tables(sellers, raffles, sellerRaffles, numbers, chatMessages, nextId)
    }

    ghost predicate Valid()
      reads this
    {
      ValidTables(Snapshot())
    }

    // ---- the writes of `ctx.db`: insert, patch and delete ------------------

    method InsertSeller(name: string, createdAt: nat) returns (id: nat)
      requires Valid()
      requires forall x :: x in sellers ==> x.name != name
      modifies this
      ensures Valid()
      ensures id == old(nextId) && nextId == id + 1
      ensures sellers == old(sellers) + [SellerRow(id, name, createdAt)]
      ensures raffles == old(raffles) && sellerRaffles == old(sellerRaffles)
      ensures numbers == old(numbers) && chatMessages == old(chatMessages)
    {
      id := nextId;
      ValidAfterNewSeller(Snapshot(), SellerRow(id, name, createdAt));
      sellers := sellers + [SellerRow(id, name, createdAt)];
      nextId := id + 1;
    }

    method InsertRaffle(amountOfNumbers: int, state: RaffleState, price: real,
                        createdAt: nat, createdBy: nat) returns (id: nat)
      requires Valid()
      modifies this
      ensures Valid()
      ensures id == old(nextId) && nextId == id + 1
      ensures raffles == old(raffles) + [RaffleRow(id, amountOfNumbers, state, price, createdAt, createdBy)]
      ensures sellers == old(sellers) && sellerRaffles == old(sellerRaffles)
      ensures numbers == old(numbers) && chatMessages == old(chatMessages)
    {
      id := nextId;
      var r := RaffleRow(id, amountOfNumbers, state, price, createdAt, createdBy);
      ValidAfterNewRaffle(Snapshot(), r);
      raffles := raffles + [r];
      nextId := id + 1;
    }

    method InsertMembership(sellerId: nat, raffleId: nat, role: Role, createdAt: nat)
      returns (id: nat)
      requires Valid() && RaffleExists(raffles, raffleId)
      modifies this
      ensures Valid()
      ensures id == old(nextId) && nextId == id + 1
      ensures sellerRaffles == old(sellerRaffles) + [MembershipRow(id, sellerId, raffleId, role, createdAt)]
      ensures sellers == old(sellers) && raffles == old(raffles)
      ensures numbers == old(numbers) && chatMessages == old(chatMessages)
    {
      id := nextId;
      var m := MembershipRow(id, sellerId, raffleId, role, createdAt);
      ValidAfterNewMembership(Snapshot(), m);
      sellerRaffles := sellerRaffles + [m];
      nextId := id + 1;
    }

    method InsertNumber(number: string, raffleId: nat, sellerId: nat, buyerName: string,
                        buyerContact: string, createdAt: nat) returns (id: nat)
      requires Valid() && RaffleExists(raffles, raffleId)
      requires forall x :: x in numbers ==> !(x.raffleId == raffleId && x.number == number)
      modifies this
      ensures Valid()
      ensures id == old(nextId) && nextId == id + 1
      ensures numbers == old(numbers)
                         + [NumberRow(id, number, raffleId, sellerId, buyerName, buyerContact, createdAt)]
      ensures sellers == old(sellers) && raffles == old(raffles)
      ensures sellerRaffles == old(sellerRaffles) && chatMessages == old(chatMessages)
    {
      id := nextId;
      var n := NumberRow(id, number, raffleId, sellerId, buyerName, buyerContact, createdAt);
      ValidAfterNewNumber(Snapshot(), n);
      numbers := numbers + [n];
      nextId := id + 1;
    }

    method InsertMessage(raffleId: nat, sellerId: nat, message: string, createdAt: nat)
      returns (id: nat)
      requires Valid() && RaffleExists(raffles, raffleId)
      modifies this
      ensures Valid()
      ensures id == old(nextId) && nextId == id + 1
      ensures chatMessages == old(chatMessages) + [ChatMessageRow(id, raffleId, sellerId, message, createdAt)]
      ensures sellers == old(sellers) && raffles == old(raffles)
      ensures sellerRaffles == old(sellerRaffles) && numbers == old(numbers)
    {
      id := nextId;
      var c := ChatMessageRow(id, raffleId, sellerId, message, createdAt);
      ValidAfterNewMessage(Snapshot(), c);
      chatMessages := chatMessages + [c];
      nextId := id + 1;
    }

    /** `ctx.db.patch(membership, { role })` on the row at position `k`. */
    method PatchRole(k: nat, role: Role)
      requires Valid() && k < |sellerRaffles|
      modifies this
      ensures Valid()
      ensures sellerRaffles == old(sellerRaffles)[k := old(sellerRaffles)[k].(role := role)]
      ensures sellers == old(sellers) && raffles == old(raffles) && nextId == old(nextId)
      ensures numbers == old(numbers) && chatMessages == old(chatMessages)
    {
      ValidAfterRolePatch(Snapshot(), k, role);
      sellerRaffles := sellerRaffles[k := sellerRaffles[k].(role := role)];
    }

    /** `ctx.db.delete(membership)` of the row at position `k`. */
    method DeleteMembership(k: nat)
      requires Valid() && k < |sellerRaffles|
      modifies this
      ensures Valid()
      ensures sellerRaffles == RemoveAt(old(sellerRaffles), k)
      ensures sellers == old(sellers) && raffles == old(raffles) && nextId == old(nextId)
      ensures numbers == old(numbers) && chatMessages == old(chatMessages)
    {
      ValidAfterMembershipDelete(Snapshot(), k);
      sellerRaffles := RemoveAt(sellerRaffles, k);
    }

    /** `ctx.db.patch(raffle, { state })` on the raffle at position `k`. */
    method PatchState(k: nat, state: RaffleState)
      requires Valid() && k < |raffles|
      modifies this
      ensures Valid()
      ensures raffles == old(raffles)[k := old(raffles)[k].(state := state)]
      ensures sellers == old(sellers) && sellerRaffles == old(sellerRaffles) && nextId == old(nextId)
      ensures numbers == old(numbers) && chatMessages == old(chatMessages)
    {
      ValidAfterStatePatch(Snapshot(), k, state);
      raffles := raffles[k := raffles[k].(state := state)];
    }
  }
}
