/** What the scan looks at: the inputs of all databases, told by their places. */
module BlackballSpends {
  import opened TxInputs
  import opened BlackballScan
  import opened Places

  /** Input `z` of transaction `y` of database `x` spends outputs by a ring, and is
      one of RingCT amount if only such are wanted. */
  ghost predicate Spends(dbs: seq<Database>, rctOnly: bool, p: Place) {
    && p.x < |dbs| && p.y < |dbs[p.x]| && p.z < |dbs[p.x][p.y].vin|
    && var txin := dbs[p.x][p.y].vin[p.z];
      txin.ToKey? && (rctOnly ==> txin.amount == 0)
  }

  /** `sp` is that input. */
  ghost predicate SpendAt(dbs: seq<Database>, p: Place, sp: Spend) {
    && p.x < |dbs| && p.y < |dbs[p.x]| && p.z < |dbs[p.x][p.y].vin|
    && var txin := dbs[p.x][p.y].vin[p.z];
      txin.ToKey? && sp == Spend(p.x == 0, txin.amount, txin.keyOffsets, txin.image)
  }

  /** The spends are those at the places, one by one. */
  ghost predicate SpendsAt(dbs: seq<Database>, places: seq<Place>, spends: seq<Spend>) {
    |spends| == |places| && forall m :: 0 <= m < |places| ==> SpendAt(dbs, places[m], spends[m])
  }

  /** The places before (x, y, z) at which an input is considered. */
  ghost predicate ListsBefore(dbs: seq<Database>, rctOnly: bool, end: Place, places: seq<Place>) {
    && InOrder(places)
    && forall p :: p in places <==> Spends(dbs, rctOnly, p) && Before(p, end)
  }

  lemma {:induction false} TxPlaces(dbs: seq<Database>, rctOnly: bool, x: nat, y: nat, z: nat, before: seq<Place>,
                                    spends: seq<Spend>)
    returns (places: seq<Place>)
    requires x < |dbs| && y < |dbs[x]| && z <= |dbs[x][y].vin|
    requires ListsBefore(dbs, rctOnly, Place(x, y, 0), before) && SpendsAt(dbs, before, spends)
    ensures ListsBefore(dbs, rctOnly, Place(x, y, z), places)
    ensures SpendsAt(dbs, places, spends + TxSpends(dbs[x][y].vin[..z], rctOnly, x == 0))
    decreases z
  {
    var vin := dbs[x][y].vin;
    if z == 0 {
      places := before;
      assert spends + [] == spends;
    } else {
      var front := TxPlaces(dbs, rctOnly, x, y, z - 1, before, spends);
      assert vin[..z][..z - 1] == vin[..z - 1];
      var p := Place(x, y, z - 1);
      assert Spends(dbs, rctOnly, p) <==> Considered(vin[z - 1], rctOnly);
      if Spends(dbs, rctOnly, p) {
        places := front + [p];
        InOrderSplit(front, [p]);
        var sp := Spend(x == 0, vin[z - 1].amount, vin[z - 1].keyOffsets, vin[z - 1].image);
        assert spends + TxSpends(vin[..z], rctOnly, x == 0) ==
          spends + TxSpends(vin[..z - 1], rctOnly, x == 0) + [sp];
      } else {
        places := front;
      }
    }
  }

  lemma {:induction false} DbPlaces(dbs: seq<Database>, rctOnly: bool, x: nat, y: nat, before: seq<Place>,
                                    spends: seq<Spend>)
    returns (places: seq<Place>)
    requires x < |dbs| && y <= |dbs[x]|
    requires ListsBefore(dbs, rctOnly, Place(x, 0, 0), before) && SpendsAt(dbs, before, spends)
    ensures ListsBefore(dbs, rctOnly, Place(x, y, 0), places)
    ensures SpendsAt(dbs, places, spends + DbSpends(dbs[x][..y], rctOnly, x == 0))
    decreases y
  {
    hide InOrder, SpendsAt;
    if y == 0 {
      places := before;
      assert spends + [] == spends;
    } else {
      var front := DbPlaces(dbs, rctOnly, x, y - 1, before, spends);
      assert dbs[x][..y][..y - 1] == dbs[x][..y - 1];
      var vin, done := dbs[x][y - 1].vin, spends + DbSpends(dbs[x][..y - 1], rctOnly, x == 0);
      places := TxPlaces(dbs, rctOnly, x, y - 1, |vin|, front, done);
      assert vin[..|vin|] == vin;
      assert done + TxSpends(vin, rctOnly, x == 0) == spends + DbSpends(dbs[x][..y], rctOnly, x == 0);
      NoneBetween(dbs, rctOnly, x, y - 1);
    }
  }

  lemma NoneBetween(dbs: seq<Database>, rctOnly: bool, x: nat, y: nat)
    requires x < |dbs| && y < |dbs[x]|
    ensures forall p :: Spends(dbs, rctOnly, p) ==>
      (Before(p, Place(x, y, |dbs[x][y].vin|)) <==> Before(p, Place(x, y + 1, 0)))
  {
  }

  lemma {:induction false} AllPlaces(dbs: seq<Database>, rctOnly: bool, x: nat) returns (places: seq<Place>)
    requires x <= |dbs|
    ensures ListsBefore(dbs, rctOnly, Place(x, 0, 0), places)
    ensures SpendsAt(dbs, places, AllSpends(dbs[..x], rctOnly))
    decreases x
  {
    if x == 0 {
      places := [];
    } else {
      hide InOrder, SpendsAt;
      var front := AllPlaces(dbs, rctOnly, x - 1);
      assert dbs[..x][..x - 1] == dbs[..x - 1];
      var db := dbs[x - 1];
      places := DbPlaces(dbs, rctOnly, x - 1, |db|, front, AllSpends(dbs[..x - 1], rctOnly));
      assert db[..|db|] == db;
      assert forall p :: Spends(dbs, rctOnly, p) ==>
        (Before(p, Place(x - 1, |db|, 0)) <==> Before(p, Place(x, 0, 0)));
    }
  }

  /** `places` lists, in loop order and each once, the places at which the input has a
      ring and is wanted, whatever the database. */
  ghost predicate ListsSpends(dbs: seq<Database>, rctOnly: bool, places: seq<Place>) {
    InOrder(places) && forall p :: p in places <==> Spends(dbs, rctOnly, p)
  }

  /** The scan sees exactly the wanted inputs of all databases, in loop order; those of
      the first database, and only those, as coming from it. */
  lemma ScanSeesAll(dbs: seq<Database>, rctOnly: bool, places: seq<Place>)
    requires ListsSpends(dbs, rctOnly, places)
    ensures SpendsAt(dbs, places, AllSpends(dbs, rctOnly))
  {
    var all := AllPlaces(dbs, rctOnly, |dbs|);
    assert dbs[..|dbs|] == dbs;
    InOrderIsUnique(places, all);
  }

  lemma PlacesExist(dbs: seq<Database>, rctOnly: bool) returns (places: seq<Place>)
    ensures ListsSpends(dbs, rctOnly, places)
  {
    places := AllPlaces(dbs, rctOnly, |dbs|);
  }
}
