/** The client-side list and validation logic of the main page
    (app/page.tsx): building the initial seller list of a new raffle, the
    number input filter and the page controls of the number list. */
module Page {
  import opened Seqs
  import opened Text
  import opened Schema
  import opened Numbers

  // ---- the seller list of the creation form --------------------------------

  /** One entry of `selectedSellers`. */
  datatype SelectedSeller = SelectedSeller(id: nat, name: string, role: Role)

  function Ids(list: seq<SelectedSeller>): (r: seq<nat>)
    ensures |r| == |list|
    ensures forall i :: 0 <= i < |r| ==> r[i] == list[i].id
  {
    seq(|list|, i requires 0 <= i < |list| => list[i].id)
  }

  predicate HasId(list: seq<SelectedSeller>, id: nat) {
    exists s :: s in list && s.id == id
  }

  predicate DistinctIds(list: seq<SelectedSeller>) {
    forall i, j :: 0 <= i < j < |list| ==> list[i].id != list[j].id
  }

  lemma DistinctIdsMeansDistinct(list: seq<SelectedSeller>)
    ensures DistinctIds(list) <==> Distinct(Ids(list))
  {
  }

  /** `handleAddSeller`: the seller joins the list as a plain seller unless
      its id is already there. */
  function AddSeller(list: seq<SelectedSeller>, seller: SellerRow): (r: seq<SelectedSeller>)
    ensures HasId(list, seller.id) ==> r == list
    ensures !HasId(list, seller.id) ==> r == list + [SelectedSeller(seller.id, seller.name, Seller)]
    ensures DistinctIds(list) ==> DistinctIds(r)
  {
    if FirstIndex(list, (s: SelectedSeller) => s.id == seller.id).Some? then list
    else list + [SelectedSeller(seller.id, seller.name, Seller)]
  }

  /** `handleRemoveSeller`: every entry with this id goes, the others stay
      in order. */
  function RemoveSeller(list: seq<SelectedSeller>, id: nat): (r: seq<SelectedSeller>)
    ensures !HasId(r, id)
    ensures forall s :: s in r <==> s in list && s.id != id
    ensures DistinctIds(list) ==> DistinctIds(r)
  {
    var p := (s: SelectedSeller) => s.id != id;
    FilterMembers(list, p);
    FilterKeepsDistinctIds(list, p);
    Filter(list, p)
  }

  /** Removing works entry by entry: a list split in two is the two
      halves, each with the id removed, so the kept entries keep their order. */
  lemma RemoveSellerConcat(a: seq<SelectedSeller>, b: seq<SelectedSeller>, id: nat)
    ensures RemoveSeller(a + b, id) == RemoveSeller(a, id) + RemoveSeller(b, id)
  {
    FilterAppend(a, b, (s: SelectedSeller) => s.id != id);
  }

  /** A single entry is dropped exactly when it carries the id. */
  lemma RemoveSellerSingle(s: SelectedSeller, id: nat)
    ensures RemoveSeller([s], id) == if s.id == id then [] else [s]
  {
    FilterSingleton(s, (x: SelectedSeller) => x.id != id);
  }

  lemma {:induction false} FilterKeepsDistinctIds(list: seq<SelectedSeller>, p: SelectedSeller -> bool)
    ensures DistinctIds(list) ==> DistinctIds(Filter(list, p))
  {
    if list != [] && DistinctIds(list) {
      var tail := list[1..];
      FilterKeepsDistinctIds(tail, p);
      FilterMembers(tail, p);
      var r := Filter(list, p);
      var rest := Filter(tail, p);
      forall k | 0 <= k < |rest| ensures rest[k].id != list[0].id {
        assert rest[k] in tail;
      }
    }
  }

  /** `handleChangeSellerRole`: the entries with this id take the new role;
      length, order, ids and every other entry stay as they were. */
  function ChangeSellerRole(list: seq<SelectedSeller>, id: nat, role: Role): (r: seq<SelectedSeller>)
    ensures |r| == |list| && Ids(r) == Ids(list)
    ensures forall i :: 0 <= i < |r| && list[i].id != id ==> r[i] == list[i]
    ensures forall i :: 0 <= i < |r| && list[i].id == id ==> r[i] == list[i].(role := role)
    ensures DistinctIds(list) ==> DistinctIds(r)
  {
    seq(|list|, i requires 0 <= i < |list| => if list[i].id == id then list[i].(role := role) else list[i])
  }

  /** The edits the creation form offers on its seller list. */
  datatype ListEdit = Add(seller: SellerRow) | Remove(id: nat) | ChangeRole(id: nat, role: Role)

  function ApplyEdits(list: seq<SelectedSeller>, edits: seq<ListEdit>): seq<SelectedSeller>
    decreases |edits|
  {
    if edits == [] then list
    else
      var next := match edits[0]
        case Add(s) => AddSeller(list, s)
        case Remove(id) => RemoveSeller(list, id)
        case ChangeRole(id, role) => ChangeSellerRole(list, id, role);
      ApplyEdits(next, edits[1..])
  }

  /** Whatever the user does to the list, starting from the empty list, no
      id ever appears twice. */
  lemma {:induction false} EditsKeepIdsDistinct(list: seq<SelectedSeller>, edits: seq<ListEdit>)
    requires DistinctIds(list)
    ensures DistinctIds(ApplyEdits(list, edits))
    decreases |edits|
  {
    if edits != [] {
      var next := match edits[0]
        case Add(s) => AddSeller(list, s)
        case Remove(id) => RemoveSeller(list, id)
        case ChangeRole(id, role) => ChangeSellerRole(list, id, role);
      EditsKeepIdsDistinct(next, edits[1..]);
    }
  }

  // ---- handleCreateRaffle --------------------------------------------------

  /** The list handleCreateRaffle submits: the creator prepended as owner
      when absent, otherwise every creator entry promoted to owner in place. */
  function CreatorAsOwner(selected: seq<SelectedSeller>, creatorId: nat, creatorName: string)
    : (list: seq<SelectedSeller>)
    ensures !HasId(selected, creatorId) ==>
      list == [SelectedSeller(creatorId, creatorName, Owner)] + selected
    ensures HasId(selected, creatorId) ==>
      && |list| == |selected| && Ids(list) == Ids(selected)
      && (forall i :: 0 <= i < |list| && selected[i].id != creatorId ==> list[i] == selected[i])
      && (forall i :: 0 <= i < |list| && selected[i].id == creatorId ==> list[i] == selected[i].(role := Owner))
    ensures list != [] && HasId(list, creatorId)
    ensures forall s :: s in list && s.id == creatorId ==> s.role == Owner
    ensures DistinctIds(selected) ==> DistinctIds(list)
  {
    if FirstIndex(selected, (s: SelectedSeller) => s.id == creatorId).None? then
      var list := [SelectedSeller(creatorId, creatorName, Owner)] + selected;
      assert list[0] in list;
      list
    else
      var list := ChangeSellerRole(selected, creatorId, Owner);
      var k := FirstIndex(selected, (s: SelectedSeller) => s.id == creatorId).value;
      assert list[k] in list;
      list
  }

  /** Lines 164-174 of handleCreateRaffle: copy the list, then `unshift` the
      creator or set the role of its entries in a `forEach`. */
  method EnsureCreatorIsOwner(selected: seq<SelectedSeller>, creatorId: nat, creatorName: string)
    returns (list: seq<SelectedSeller>)
    ensures list == CreatorAsOwner(selected, creatorId, creatorName)
  {
    list := selected;
    var found := FirstIndex(list, (s: SelectedSeller) => s.id == creatorId);
    if found.None? {
      list := [SelectedSeller(creatorId, creatorName, Owner)] + list;
      return;
    }
    for k := 0 to |list|
      invariant |list| == |selected|
      invariant forall i :: 0 <= i < k ==>
        list[i] == if selected[i].id == creatorId then selected[i].(role := Owner) else selected[i]
      invariant forall i :: k <= i < |list| ==> list[i] == selected[i]
    {
      if list[k].id == creatorId {
        list := list[k := list[k].(role := Owner)];
      }
    }
  }

  function Roles(list: seq<SelectedSeller>): (r: seq<Role>)
    ensures |r| == |list|
    ensures forall i :: 0 <= i < |r| ==> r[i] == list[i].role
  {
    seq(|list|, i requires 0 <= i < |list| => list[i].role)
  }

  /** The arguments handleCreateRaffle passes to createRaffle. */
  datatype CreateArgs = CreateArgs(amountOfNumbers: int, price: real, createdBy: nat,
                                   sellerIds: seq<nat>, roles: seq<Role>)

  /** What a click on "create" does: nothing, an alert, or a call. */
  datatype CreateOutcome = Ignored | InvalidAmounts | NoSellers | Submit(args: CreateArgs)

  /** `handleCreateRaffle`: a blank field or a missing session does nothing;
      the parsed amount and price (`None` for NaN) must be positive; then the
      creator is made an owner of the list and the list is submitted. */
  method HandleCreateRaffle(raffleAmount: string, rafflePrice: string,
                            sellerId: Option<nat>, seller: Option<SellerRow>,
                            amount: Option<int>, price: Option<real>,
                            selected: seq<SelectedSeller>)
    returns (out: CreateOutcome)
    ensures out == Ignored <==>
      Trim(raffleAmount) == [] || Trim(rafflePrice) == [] || sellerId.None? || seller.None?
    ensures out == InvalidAmounts <==>
      && out != Ignored
      && (amount.None? || price.None? || amount.value <= 0 || price.value <= 0.0)
    ensures out != NoSellers
    ensures out.Submit? ==>
      && out.args.amountOfNumbers == amount.value && out.args.amountOfNumbers > 0
      && out.args.price == price.value && out.args.price > 0.0
      && out.args.createdBy == sellerId.value
      && |out.args.sellerIds| == |out.args.roles| > 0
      && (exists i :: 0 <= i < |out.args.sellerIds| && out.args.sellerIds[i] == sellerId.value)
      && (forall i :: 0 <= i < |out.args.sellerIds| && out.args.sellerIds[i] == sellerId.value ==>
            out.args.roles[i] == Owner)
      && (DistinctIds(selected) ==> Distinct(out.args.sellerIds))
    ensures out.Submit? ==>
      && out.args.sellerIds == Ids(CreatorAsOwner(selected, sellerId.value, seller.value.name))
      && out.args.roles == Roles(CreatorAsOwner(selected, sellerId.value, seller.value.name))
  {
    if Trim(raffleAmount) == [] || Trim(rafflePrice) == [] || sellerId.None? || seller.None? {
      return Ignored;
    }
    if amount.None? || price.None? || amount.value <= 0 || price.value <= 0.0 {
      return InvalidAmounts;
    }
    var list := EnsureCreatorIsOwner(selected, sellerId.value, seller.value.name);
    if |list| == 0 {
      // the creator was just put in the list
      assert false;
      return NoSellers;
    }
    var ids := Ids(list);
    var roles := Roles(list);
    forall i | 0 <= i < |ids| && ids[i] == sellerId.value ensures roles[i] == Owner {
      assert list[i] in list;
    }
    var k :| 0 <= k < |list| && list[k].id == sellerId.value;
    assert ids[k] == sellerId.value;
    out := Submit(CreateArgs(amount.value, price.value, sellerId.value, ids, roles));
  }

  // ---- handleNumberChange --------------------------------------------------

  /** `/^\d+$/`: one or more digits and nothing else. */
  function AllDigits(s: string): (b: bool)
    ensures b <==> s != [] && forall i :: 0 <= i < |s| ==> IsDigit(s[i])
  {
    if |s| == 1 then IsDigit(s[0])
    else if s == [] then false
    else IsDigit(s[0]) && AllDigits(s[1..])
  }

  /** `handleNumberChange`: the field takes the typed value only when it is
      empty or all digits, and otherwise keeps what it had. */
  function NumberChange(current: string, value: string): (next: string)
    ensures (value == [] || forall i :: 0 <= i < |value| ==> IsDigit(value[i])) ==> next == value
    ensures !(value == [] || forall i :: 0 <= i < |value| ==> IsDigit(value[i])) ==> next == current
  {
    if value == [] || AllDigits(value) then value else current
  }

  // ---- the page controls of the number list ---------------------------------

  const ItemsPerPage: nat := 20

  /** "Anterior": `Math.max(0, currentPage - 1)`. */
  function PreviousPage(page: int): (p: int)
    ensures p >= 0
    ensures page > 0 ==> p == page - 1
    ensures page <= 0 ==> p == 0
  {
    if page - 1 > 0 then page - 1 else 0
  }

  /** What can happen to `currentPage`: "Anterior", "Siguiente" when the
      shown page is not the last one, and the reset to 0 after a search or a
      registration. */
  datatype PageAction = Previous | Next(isDone: bool) | Reset

  function StepPage(page: int, a: PageAction): int {
    match a
    case Previous => PreviousPage(page)
    case Next(isDone) => if isDone then page else page + 1
    case Reset => 0
  }

  function RunPage(page: int, actions: seq<PageAction>): int
    decreases |actions|
  {
    if actions == [] then page else RunPage(StepPage(page, actions[0]), actions[1..])
  }

  /** From the first page, no sequence of clicks and resets reaches a
      negative page. */
  lemma {:induction false} PageNeverNegative(page: int, actions: seq<PageAction>)
    requires page >= 0
    ensures RunPage(page, actions) >= 0
    decreases |actions|
  {
    if actions != [] {
      PageNeverNegative(StepPage(page, actions[0]), actions[1..]);
    }
  }

  /** The options the page sends: 20 items from `page * 20`. */
  function RequestOpts(page: nat): (o: Option<PaginationOpts>)
    ensures PageSize(o) == ItemsPerPage && PageStart(o) == page * ItemsPerPage
  {
    Some(PaginationOpts(ItemsPerPage, Some(page * ItemsPerPage)))
  }

  /** The client's next page starts where the server's `nextCursor` points,
      and is never empty when "Siguiente" was enabled. */
  lemma NextPageFollowsCursor(s: seq<NumberRow>, page: nat)
    requires !Paginate(s, RequestOpts(page)).isDone
    ensures Paginate(s, RequestOpts(page)).nextCursor == Some((page + 1) * ItemsPerPage)
    ensures Paginate(s, RequestOpts(page + 1)).results != []
  {
    assert |Paginate(s, RequestOpts(page + 1)).results| > 0;
  }
}
