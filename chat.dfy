/** The per-raffle chat (convex/chat.ts). */
module Chat {
  import opened Seqs
  import opened Text
  import opened Schema

  /** A stored message is non-empty and carries no surrounding whitespace. */
  predicate Trimmed(c: ChatMessageRow) {
    c.message != [] && Trim(c.message) == c.message
  }

  predicate AllTrimmed(cs: seq<ChatMessageRow>) {
    forall c :: c in cs ==> Trimmed(c)
  }

  /** `sendMessage`: only a member of the raffle may post; a message that is
      blank once trimmed is refused; otherwise the trimmed text is stored. */
  method SendMessage(db: Db, raffleId: nat, sellerId: nat, message: string, now: nat)
    returns (res: Result<nat>)
    requires db.Valid()
    modifies db
    ensures db.Valid()
    ensures old(RoleIn(db.sellerRaffles, sellerId, raffleId)).None? ==>
      res == Err(NoAccessToRaffle) && db.Snapshot() == old(db.Snapshot())
    ensures old(RoleIn(db.sellerRaffles, sellerId, raffleId)).Some? && Trim(message) == [] ==>
      res == Err(EmptyMessage) && db.Snapshot() == old(db.Snapshot())
    ensures old(RoleIn(db.sellerRaffles, sellerId, raffleId)).Some? && Trim(message) != [] ==>
      && res == Ok(old(db.nextId))
      && db.chatMessages == old(db.chatMessages)
                            + [ChatMessageRow(res.value, raffleId, sellerId, Trim(message), now)]
      && db.nextId == res.value + 1
      && db.sellers == old(db.sellers) && db.raffles == old(db.raffles)
      && db.sellerRaffles == old(db.sellerRaffles) && db.numbers == old(db.numbers)
    ensures old(AllTrimmed(db.chatMessages)) ==> AllTrimmed(db.chatMessages)
  {
    var access := FindMembership(db.sellerRaffles, sellerId, raffleId);
    if access.None? {
      return Err(NoAccessToRaffle);
    }
    var text := Trim(message);
    if text == [] {
      return Err(EmptyMessage);
    }
    assert RaffleExists(db.raffles, raffleId) by {
      assert db.sellerRaffles[access.value] in db.sellerRaffles;
    }
    TrimIdempotent(message);
    var id := db.InsertMessage(raffleId, sellerId, text, now);
    res := Ok(id);
  }

  /** One entry of `getMessages`: the stored message plus its author's name. */
  datatype MessageView = MessageView(message: ChatMessageRow, sellerName: string)

  /** `seller?.name || "Desconocido"`: a missing seller, and a seller whose
      name is empty, both read as "Desconocido". */
  function SenderName(sellers: seq<SellerRow>, sellerId: nat): (name: string)
    ensures name != []
    ensures name != "Desconocido" ==>
      exists s :: s in sellers && s.id == sellerId && s.name == name
    ensures (forall s :: s in sellers ==> s.id != sellerId) ==> name == "Desconocido"
    ensures SellerById(sellers, sellerId).Some? && SellerById(sellers, sellerId).value.name != [] ==>
      name == SellerById(sellers, sellerId).value.name
    ensures SellerById(sellers, sellerId).Some? && SellerById(sellers, sellerId).value.name == [] ==>
      name == "Desconocido"
  {
    match SellerById(sellers, sellerId)
    case Some(s) => if s.name != [] then s.name else "Desconocido"
    case None => "Desconocido"
  }

  /** The raffle's messages in table order, which is creation order
      (`.order("asc")` on the `by_raffle` index). */
  function MessagesOfRaffle(cs: seq<ChatMessageRow>, raffleId: nat): (r: seq<ChatMessageRow>)
    ensures forall c :: c in r <==> c in cs && c.raffleId == raffleId
  {
    FilterMembers(cs, InRaffle(raffleId));
    Filter(cs, InRaffle(raffleId))
  }

  function InRaffle(raffleId: nat): ChatMessageRow -> bool {
    (c: ChatMessageRow) => c.raffleId == raffleId
  }

  /** `getMessages`: nothing for a non-member (no error), otherwise every
      message of the raffle, oldest first, with its author's name. */
  function GetMessages(db: Db, raffleId: nat, sellerId: nat): (r: seq<MessageView>)
    reads db
    ensures RoleIn(db.sellerRaffles, sellerId, raffleId).None? ==> r == []
    ensures RoleIn(db.sellerRaffles, sellerId, raffleId).Some? ==>
      && |r| == |MessagesOfRaffle(db.chatMessages, raffleId)|
      && forall i :: 0 <= i < |r| ==>
           && r[i].message == MessagesOfRaffle(db.chatMessages, raffleId)[i]
           && r[i].sellerName == SenderName(db.sellers, r[i].message.sellerId)
  {
    if FindMembership(db.sellerRaffles, sellerId, raffleId).None? then []
    else
      var ms := MessagesOfRaffle(db.chatMessages, raffleId);
      seq(|ms|, i requires 0 <= i < |ms| reads db => MessageView(ms[i], SenderName(db.sellers, ms[i].sellerId)))
  }

  /** A post to a raffle appends it to the end of that raffle's chat. */
  lemma PostedMessageAppears(cs: seq<ChatMessageRow>, c: ChatMessageRow)
    ensures MessagesOfRaffle(cs + [c], c.raffleId) == MessagesOfRaffle(cs, c.raffleId) + [c]
  {
    FilterAppend(cs, [c], InRaffle(c.raffleId));
    FilterSingleton(c, InRaffle(c.raffleId));
  }

  /** Messages of other raffles never show up: after a post to one raffle,
      every other raffle's chat reads as before. */
  lemma PostLeavesOtherChats(cs: seq<ChatMessageRow>, c: ChatMessageRow, raffleId: nat)
    requires raffleId != c.raffleId
    ensures MessagesOfRaffle(cs + [c], raffleId) == MessagesOfRaffle(cs, raffleId)
  {
    FilterAppend(cs, [c], InRaffle(raffleId));
    FilterSingleton(c, InRaffle(raffleId));
  }
}
