/** The seller directory (convex/auth.ts): identity is a name, looked up
    exactly, created on first use. */
module Auth {
  import opened Seqs
  import opened Schema

  /** `findSellerByName`: the oldest seller with exactly this name, or none. */
  function FindSellerByName(db: Db, name: string): (r: Option<SellerRow>)
    reads db
    ensures r.Some? ==> r.value in db.sellers && r.value.name == name
    ensures r.None? <==> forall s :: s in db.sellers ==> s.name != name
  {
    match FirstIndex(db.sellers, (s: SellerRow) => s.name == name)
    case Some(k) => Some(db.sellers[k])
    case None => None
  }

  /** `createSeller`: returns the id of the seller with this name, inserting
      one first when there is none. */
  method CreateSeller(db: Db, name: string, now: nat) returns (id: nat)
    requires db.Valid()
    modifies db
    ensures db.Valid() && UniqueNames(db.sellers)
    ensures old(FindSellerByName(db, name)).Some? ==>
      && id == old(FindSellerByName(db, name)).value.id
      && db.Snapshot() == old(db.Snapshot())
    ensures old(FindSellerByName(db, name)).None? ==>
      && id == old(db.nextId)
      && db.Snapshot() == old(db.Snapshot()).(sellers := old(db.sellers) + [SellerRow(id, name, now)],
                                              nextId := id + 1)
    ensures FindSellerByName(db, name).Some? && FindSellerByName(db, name).value.id == id
  {
    var existing := FindSellerByName(db, name);
    if existing.Some? {
      return existing.value.id;
    }
    id := db.InsertSeller(name, now);
    assert db.sellers[|db.sellers| - 1].name == name;
  }

  /** `getSeller`: the seller with this id, or none. Being a function, it
      changes nothing. */
  function GetSeller(db: Db, id: nat): (r: Option<SellerRow>)
    reads db
    ensures r.Some? ==> r.value in db.sellers && r.value.id == id
    ensures r.None? <==> forall s :: s in db.sellers ==> s.id != id
  {
    SellerById(db.sellers, id)
  }

  /** Under the directory's invariant a name identifies one seller, so the
      lookup by name is the only seller carrying it. */
  lemma NameIdentifiesSeller(db: Db, s: SellerRow)
    requires db.Valid() && s in db.sellers
    ensures FindSellerByName(db, s.name) == Some(s)
  {
    var i :| 0 <= i < |db.sellers| && db.sellers[i] == s;
    var f := FindSellerByName(db, s.name);
    var j :| 0 <= j < |db.sellers| && db.sellers[j] == f.value;
    assert !(i < j) && !(j < i);
  }
}
