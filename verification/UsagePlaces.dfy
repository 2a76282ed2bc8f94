/** What the usage tool records, told by the places of outputs and ring members in
    the list of transactions. */
module UsagePlaces {
  import opened RingOffsets
  import opened TxInputs
  import opened Places
  import opened OutputUsage
  import opened UsageFacts

  /** Output `y` of transaction `x` has amount `a`, and such are wanted. */
  ghost predicate CreationAt(txs: seq<Tx>, rctOnly: bool, a: U64, p: Place) {
    p.x < |txs| && p.y < |txs[p.x].vout| && p.z == 0 && txs[p.x].vout[p.y] == a && (rctOnly ==> a == 0)
  }

  /** Output `k` stands at position `z` of the ring of input `y` of transaction `x`,
      an input that is wanted. */
  ghost predicate ReferenceAt(txs: seq<Tx>, rctOnly: bool, k: Key, p: Place) {
    && p.x < |txs| && p.y < |txs[p.x].vin|
    && var txin := txs[p.x].vin[p.y];
      && txin.ToKey? && (rctOnly ==> txin.amount == 0) && txin.amount == k.amount
      && p.z < |txin.keyOffsets| && Absolute(txin.keyOffsets)[p.z] == k.index
  }

  /** What is recorded for such a position. */
  ghost predicate RecordAt(txs: seq<Tx>, p: Place, r: Reference) {
    && p.x < |txs| && p.y < |txs[p.x].vin| && txs[p.x].vin[p.y].ToKey?
    && r == Reference(txs[p.x].height, |txs[p.x].vin[p.y].keyOffsets|, p.z)
  }

  /** The event has the height of transaction `x`, and is a coinbase's exactly when that
      has a generating input and no other. */
  ghost predicate FromTx(txs: seq<Tx>, p: Place, e: Event) {
    p.x < |txs| && e.height == txs[p.x].height && (e.coinbase <==> txs[p.x].vin == [Gen])
  }

  // ---- The events of one output ------------------------------------------------------------

  function CreatesOf(es: seq<Event>, a: U64): (r: seq<Event>) {
    if es == [] then []
    else
      var e := es[|es| - 1];
      CreatesOf(es[..|es| - 1], a) + (if e.Create? && e.amount == a then [e] else [])
  }

  function RefersOf(es: seq<Event>, k: Key): (r: seq<Event>)
    ensures forall e :: e in r ==> e.Refer?
  {
    if es == [] then []
    else
      var e := es[|es| - 1];
      RefersOf(es[..|es| - 1], k) + (if e.Refer? && e.key == k then [e] else [])
  }

  lemma {:induction false} CreatesOfSplit(a: seq<Event>, b: seq<Event>, x: U64)
    ensures CreatesOf(a + b, x) == CreatesOf(a, x) + CreatesOf(b, x)
  {
    if b == [] {
      assert a + b == a;
    } else {
      assert (a + b)[..|a + b| - 1] == a + b[..|b| - 1];
      CreatesOfSplit(a, b[..|b| - 1], x);
    }
  }

  lemma {:induction false} RefersOfSplit(a: seq<Event>, b: seq<Event>, k: Key)
    ensures RefersOf(a + b, k) == RefersOf(a, k) + RefersOf(b, k)
  {
    if b == [] {
      assert a + b == a;
    } else {
      assert (a + b)[..|a + b| - 1] == a + b[..|b| - 1];
      RefersOfSplit(a, b[..|b| - 1], k);
    }
  }

  lemma OneEvent(e: Event, a: U64, k: Key)
    ensures CreatesOf([e], a) == if e.Create? && e.amount == a then [e] else []
    ensures RefersOf([e], k) == if e.Refer? && e.key == k then [e] else []
  {
    assert CreatesOf([e][..0], a) == [] && RefersOf([e][..0], k) == [];
  }

  lemma {:induction false} CreatesOfCount(es: seq<Event>, a: U64)
    ensures |CreatesOf(es, a)| == Created(es, a)
  {
    if es != [] {
      CreatesOfCount(es[..|es| - 1], a);
    }
  }

  lemma {:induction false} RefersOfRefs(es: seq<Event>, k: Key)
    ensures |RefersOf(es, k)| == |RefsTo(es, k)|
    ensures forall m :: 0 <= m < |RefsTo(es, k)| ==> RefersOf(es, k)[m].ref == RefsTo(es, k)[m]
  {
    if es != [] {
      RefersOfRefs(es[..|es| - 1], k);
    }
  }

  lemma {:induction false} NoCreates(es: seq<Event>, a: U64)
    requires forall e :: e in es ==> e.Refer?
    ensures CreatesOf(es, a) == []
  {
    if es != [] {
      assert es[|es| - 1] in es;
      NoCreates(es[..|es| - 1], a);
    }
  }

  lemma {:induction false} NoRefers(es: seq<Event>, k: Key)
    requires forall e :: e in es ==> e.Create?
    ensures RefersOf(es, k) == []
  {
    if es != [] {
      assert es[|es| - 1] in es;
      NoRefers(es[..|es| - 1], k);
    }
  }

  lemma {:induction false} KindsOfEvents(vout: seq<U64>, vin: seq<TxIn>, coinbase: bool, height: U64, rctOnly: bool)
    ensures forall e :: e in Creates(vout, coinbase, height, rctOnly) ==> e.Create?
    ensures forall e :: e in Refers(vin, coinbase, height, rctOnly) ==> e.Refer?
    decreases |vout| + |vin|
  {
    if vout != [] {
      KindsOfEvents(vout[..|vout| - 1], vin, coinbase, height, rctOnly);
    } else if vin != [] {
      KindsOfEvents(vout, vin[..|vin| - 1], coinbase, height, rctOnly);
    }
  }

  // ---- Creations -----------------------------------------------------------------------------

  ghost predicate CreationsBefore(txs: seq<Tx>, rctOnly: bool, a: U64, end: Place, places: seq<Place>) {
    InOrder(places) && forall p :: p in places <==> CreationAt(txs, rctOnly, a, p) && Before(p, end)
  }

  ghost predicate EventsAt(txs: seq<Tx>, places: seq<Place>, es: seq<Event>) {
    |es| == |places| && forall m :: 0 <= m < |es| ==> FromTx(txs, places[m], es[m])
  }

  lemma CreationMore(txs: seq<Tx>, rctOnly: bool, a: U64, x: nat, y: nat, front: seq<Place>, done: seq<Event>, e: Event)
    requires x < |txs| && y < |txs[x].vout| && FromTx(txs, Place(x, y, 0), e)
    requires CreationsBefore(txs, rctOnly, a, Place(x, y, 0), front) && EventsAt(txs, front, done)
    ensures CreationAt(txs, rctOnly, a, Place(x, y, 0)) ==>
      && CreationsBefore(txs, rctOnly, a, Place(x, y + 1, 0), front + [Place(x, y, 0)])
      && EventsAt(txs, front + [Place(x, y, 0)], done + [e])
    ensures !CreationAt(txs, rctOnly, a, Place(x, y, 0)) ==>
      CreationsBefore(txs, rctOnly, a, Place(x, y + 1, 0), front)
  {
    hide FromTx;
    if CreationAt(txs, rctOnly, a, Place(x, y, 0)) {
      InOrderSplit(front, [Place(x, y, 0)]);
    }
  }

  /** One more output adds its creation, if it is wanted and of the amount. */
  lemma CreatesOfMore(vout: seq<U64>, y: nat, coinbase: bool, height: U64, rctOnly: bool, a: U64)
    requires y < |vout|
    ensures CreatesOf(Creates(vout[..y + 1], coinbase, height, rctOnly), a) ==
      CreatesOf(Creates(vout[..y], coinbase, height, rctOnly), a) +
      if vout[y] == a && (rctOnly ==> a == 0) then [Create(coinbase, height, vout[y])] else []
  {
    assert vout[..y + 1][..y] == vout[..y];
    var creates := Creates(vout[..y], coinbase, height, rctOnly);
    var e := Create(coinbase, height, vout[y]);
    CreatesOfSplit(creates, [e], a);
    OneEvent(e, a, Key(a, 0));
    assert creates + [] == creates && CreatesOf(creates, a) + [] == CreatesOf(creates, a);
  }

  lemma CoinbaseIs(tx: Tx)
    ensures IsCoinbase(tx) <==> tx.vin == [Gen]
  {
  }

  lemma CreationStep(txs: seq<Tx>, rctOnly: bool, a: U64, x: nat, y: nat, front: seq<Place>, done: seq<Event>,
                     e: Event)
    returns (places: seq<Place>)
    requires x < |txs| && y < |txs[x].vout| && e == Create(IsCoinbase(txs[x]), txs[x].height, txs[x].vout[y])
    requires CreationsBefore(txs, rctOnly, a, Place(x, y, 0), front) && EventsAt(txs, front, done)
    ensures CreationsBefore(txs, rctOnly, a, Place(x, y + 1, 0), places)
    ensures EventsAt(txs, places, done + if txs[x].vout[y] == a && (rctOnly ==> a == 0) then [e] else [])
  {
    hide CreationsBefore, EventsAt, IsCoinbase;
    CoinbaseIs(txs[x]);
    var p := Place(x, y, 0);
    CreationMore(txs, rctOnly, a, x, y, front, done, e);
    places := if CreationAt(txs, rctOnly, a, p) then front + [p] else front;
    assert done + [] == done;
  }

  lemma {:induction false} TxCreations(txs: seq<Tx>, rctOnly: bool, a: U64, x: nat, y: nat, before: seq<Place>,
                                       done: seq<Event>)
    returns (places: seq<Place>)
    requires x < |txs| && y <= |txs[x].vout|
    requires CreationsBefore(txs, rctOnly, a, Place(x, 0, 0), before) && EventsAt(txs, before, done)
    ensures CreationsBefore(txs, rctOnly, a, Place(x, y, 0), places)
    ensures EventsAt(txs, places,
                     done + CreatesOf(Creates(txs[x].vout[..y], IsCoinbase(txs[x]), txs[x].height, rctOnly), a))
    decreases y
  {
    var tx := txs[x];
    if y == 0 {
      places := before;
      assert done + [] == done;
    } else {
      hide CreationsBefore, EventsAt, Creates, CreatesOf, IsCoinbase;
      places := TxCreations(txs, rctOnly, a, x, y - 1, before, done);
      CreatesOfMore(tx.vout, y - 1, IsCoinbase(tx), tx.height, rctOnly, a);
      var soFar := CreatesOf(Creates(tx.vout[..y - 1], IsCoinbase(tx), tx.height, rctOnly), a);
      var e := Create(IsCoinbase(tx), tx.height, tx.vout[y - 1]);
      var added := if tx.vout[y - 1] == a && (rctOnly ==> a == 0) then [e] else [];
      places := CreationStep(txs, rctOnly, a, x, y - 1, places, done + soFar, e);
      Assoc(done, soFar, added);
    }
  }

  lemma Assoc(a: seq<Event>, b: seq<Event>, c: seq<Event>)
    ensures a + b + c == a + (b + c)
  {
  }

  lemma {:induction false} AllCreations(txs: seq<Tx>, rctOnly: bool, a: U64, x: nat) returns (places: seq<Place>)
    requires x <= |txs|
    ensures CreationsBefore(txs, rctOnly, a, Place(x, 0, 0), places)
    ensures EventsAt(txs, places, CreatesOf(Events(txs[..x], rctOnly), a))
    decreases x
  {
    if x == 0 {
      places := [];
    } else {
      hide InOrder, EventsAt;
      var front := AllCreations(txs, rctOnly, a, x - 1);
      assert txs[..x][..x - 1] == txs[..x - 1];
      var tx, done := txs[x - 1], Events(txs[..x - 1], rctOnly);
      var creates := Creates(tx.vout, IsCoinbase(tx), tx.height, rctOnly);
      var refers := Refers(tx.vin, IsCoinbase(tx), tx.height, rctOnly);
      places := TxCreations(txs, rctOnly, a, x - 1, |tx.vout|, front, CreatesOf(done, a));
      assert tx.vout[..|tx.vout|] == tx.vout;
      KindsOfEvents(tx.vout, tx.vin, IsCoinbase(tx), tx.height, rctOnly);
      NoCreates(refers, a);
      CreatesOfSplit(done, creates + refers, a);
      CreatesOfSplit(creates, refers, a);
      assert CreatesOf(creates, a) + [] == CreatesOf(creates, a);
      assert forall p :: CreationAt(txs, rctOnly, a, p) ==>
        (Before(p, Place(x - 1, |tx.vout|, 0)) <==> Before(p, Place(x, 0, 0)));
    }
  }

  // ---- References ------------------------------------------------------------------------------

  ghost predicate ReferencesBefore(txs: seq<Tx>, rctOnly: bool, k: Key, end: Place, places: seq<Place>) {
    InOrder(places) && forall p :: p in places <==> ReferenceAt(txs, rctOnly, k, p) && Before(p, end)
  }

  ghost predicate RecordsAt(txs: seq<Tx>, places: seq<Place>, es: seq<Event>) {
    && EventsAt(txs, places, es)
    && forall m :: 0 <= m < |es| ==> es[m].Refer? && RecordAt(txs, places[m], es[m].ref)
  }

  lemma ReferenceMore(txs: seq<Tx>, rctOnly: bool, k: Key, p: Place, front: seq<Place>, done: seq<Event>, e: Event)
    requires e.Refer? && FromTx(txs, p, e) && RecordAt(txs, p, e.ref)
    requires ReferencesBefore(txs, rctOnly, k, p, front) && RecordsAt(txs, front, done)
    ensures ReferenceAt(txs, rctOnly, k, p) ==>
      && ReferencesBefore(txs, rctOnly, k, p.(z := p.z + 1), front + [p])
      && RecordsAt(txs, front + [p], done + [e])
    ensures !ReferenceAt(txs, rctOnly, k, p) ==> ReferencesBefore(txs, rctOnly, k, p.(z := p.z + 1), front)
  {
    hide FromTx, RecordAt, ReferenceAt;
    if ReferenceAt(txs, rctOnly, k, p) {
      InOrderSplit(front, [p]);
    }
  }

  /** One more ring member adds its reference, if it is the output. */
  lemma RefersOfMore(txin: TxIn, z: nat, coinbase: bool, height: U64, k: Key)
    requires txin.ToKey? && z < |txin.keyOffsets|
    ensures RefersOf(RingRefers(txin.amount, txin.keyOffsets, coinbase, height, z + 1), k) ==
      RefersOf(RingRefers(txin.amount, txin.keyOffsets, coinbase, height, z), k) +
      if Key(txin.amount, Absolute(txin.keyOffsets)[z]) == k
      then [Refer(coinbase, height, k, Reference(height, |txin.keyOffsets|, z))]
      else []
  {
    hide Absolute;
    var soFar := RingRefers(txin.amount, txin.keyOffsets, coinbase, height, z);
    var key, ref := Key(txin.amount, Absolute(txin.keyOffsets)[z]), Reference(height, |txin.keyOffsets|, z);
    var e := Refer(coinbase, height, key, ref);
    RefersOfSplit(soFar, [e], k);
    OneEvent(e, 0, k);
  }

  lemma ReferenceStep(txs: seq<Tx>, rctOnly: bool, k: Key, p: Place, front: seq<Place>, done: seq<Event>, e: Event)
    returns (places: seq<Place>)
    requires p.x < |txs| && p.y < |txs[p.x].vin|
    requires var txin := txs[p.x].vin[p.y];
      && txin.ToKey? && (rctOnly ==> txin.amount == 0) && p.z < |txin.keyOffsets|
      && e == Refer(IsCoinbase(txs[p.x]), txs[p.x].height, k, Reference(txs[p.x].height, |txin.keyOffsets|, p.z))
    requires ReferencesBefore(txs, rctOnly, k, p, front) && RecordsAt(txs, front, done)
    ensures ReferencesBefore(txs, rctOnly, k, p.(z := p.z + 1), places)
    ensures var txin := txs[p.x].vin[p.y];
      RecordsAt(txs, places, done + if Key(txin.amount, Absolute(txin.keyOffsets)[p.z]) == k then [e] else [])
  {
    hide ReferencesBefore, RecordsAt, IsCoinbase, Absolute;
    CoinbaseIs(txs[p.x]);
    ReferenceMore(txs, rctOnly, k, p, front, done, e);
    places := if ReferenceAt(txs, rctOnly, k, p) then front + [p] else front;
    assert done + [] == done;
  }

  lemma {:induction false} RingReferences(txs: seq<Tx>, rctOnly: bool, k: Key, x: nat, y: nat, z: nat,
                                          before: seq<Place>, done: seq<Event>)
    returns (places: seq<Place>)
    requires x < |txs| && y < |txs[x].vin| && txs[x].vin[y].ToKey? && z <= |txs[x].vin[y].keyOffsets|
    requires rctOnly ==> txs[x].vin[y].amount == 0
    requires ReferencesBefore(txs, rctOnly, k, Place(x, y, 0), before) && RecordsAt(txs, before, done)
    ensures ReferencesBefore(txs, rctOnly, k, Place(x, y, z), places)
    ensures var txin := txs[x].vin[y];
      RecordsAt(txs, places, done +
        RefersOf(RingRefers(txin.amount, txin.keyOffsets, IsCoinbase(txs[x]), txs[x].height, z), k))
    decreases z
  {
    var tx := txs[x];
    var txin := tx.vin[y];
    if z == 0 {
      places := before;
      assert done + [] == done;
    } else {
      hide ReferencesBefore, RecordsAt, RingRefers, RefersOf, Absolute, IsCoinbase;
      places := RingReferences(txs, rctOnly, k, x, y, z - 1, before, done);
      RefersOfMore(txin, z - 1, IsCoinbase(tx), tx.height, k);
      var soFar := RefersOf(RingRefers(txin.amount, txin.keyOffsets, IsCoinbase(tx), tx.height, z - 1), k);
      var e := Refer(IsCoinbase(tx), tx.height, k, Reference(tx.height, |txin.keyOffsets|, z - 1));
      var added := if Key(txin.amount, Absolute(txin.keyOffsets)[z - 1]) == k then [e] else [];
      places := ReferenceStep(txs, rctOnly, k, Place(x, y, z - 1), places, done + soFar, e);
      Assoc(done, soFar, added);
    }
  }

  lemma NoneAtSkipped(txs: seq<Tx>, rctOnly: bool, k: Key, x: nat, y: nat)
    requires x < |txs| && y < |txs[x].vin|
    ensures var txin := txs[x].vin[y];
      forall p :: ReferenceAt(txs, rctOnly, k, p) ==>
        (Before(p, Place(x, y + 1, 0)) <==>
          Before(p, Place(x, y, if Considered(txin, rctOnly) then |txin.keyOffsets| else 0)))
  {
    hide Absolute;
  }

  lemma {:induction false} TxReferences(txs: seq<Tx>, rctOnly: bool, k: Key, x: nat, y: nat, before: seq<Place>,
                                        done: seq<Event>)
    returns (places: seq<Place>)
    requires x < |txs| && y <= |txs[x].vin|
    requires ReferencesBefore(txs, rctOnly, k, Place(x, 0, 0), before) && RecordsAt(txs, before, done)
    ensures ReferencesBefore(txs, rctOnly, k, Place(x, y, 0), places)
    ensures RecordsAt(txs, places,
                      done + RefersOf(Refers(txs[x].vin[..y], IsCoinbase(txs[x]), txs[x].height, rctOnly), k))
    decreases y
  {
    var tx := txs[x];
    if y == 0 {
      places := before;
      assert done + [] == done;
    } else {
      hide RecordsAt, ReferencesBefore, RingRefers, RefersOf, IsCoinbase;
      places := TxReferences(txs, rctOnly, k, x, y - 1, before, done);
      assert tx.vin[..y][..y - 1] == tx.vin[..y - 1];
      var refers := Refers(tx.vin[..y - 1], IsCoinbase(tx), tx.height, rctOnly);
      var txin, soFar := tx.vin[y - 1], RefersOf(refers, k);
      if Considered(txin, rctOnly) {
        var ring := RingRefers(txin.amount, txin.keyOffsets, IsCoinbase(tx), tx.height, |txin.keyOffsets|);
        places := RingReferences(txs, rctOnly, k, x, y - 1, |txin.keyOffsets|, places, done + soFar);
        RefersOfSplit(refers, ring, k);
        Assoc(done, soFar, RefersOf(ring, k));
      } else {
        assert refers + [] == refers;
      }
      NextInput(txs, rctOnly, k, x, y - 1, places);
    }
  }

  lemma NextInput(txs: seq<Tx>, rctOnly: bool, k: Key, x: nat, y: nat, places: seq<Place>)
    requires x < |txs| && y < |txs[x].vin|
    requires var txin := txs[x].vin[y];
      ReferencesBefore(txs, rctOnly, k, Place(x, y, if Considered(txin, rctOnly) then |txin.keyOffsets| else 0), places)
    ensures ReferencesBefore(txs, rctOnly, k, Place(x, y + 1, 0), places)
  {
    NoneAtSkipped(txs, rctOnly, k, x, y);
    hide ReferenceAt, InOrder;
  }

  lemma {:induction false} AllReferences(txs: seq<Tx>, rctOnly: bool, k: Key, x: nat) returns (places: seq<Place>)
    requires x <= |txs|
    ensures ReferencesBefore(txs, rctOnly, k, Place(x, 0, 0), places)
    ensures RecordsAt(txs, places, RefersOf(Events(txs[..x], rctOnly), k))
    decreases x
  {
    if x == 0 {
      places := [];
    } else {
      hide ReferencesBefore, RecordsAt, RefersOf, Creates, Refers, IsCoinbase;
      var front := AllReferences(txs, rctOnly, k, x - 1);
      assert txs[..x][..x - 1] == txs[..x - 1];
      var tx, done := txs[x - 1], Events(txs[..x - 1], rctOnly);
      var creates := Creates(tx.vout, IsCoinbase(tx), tx.height, rctOnly);
      var refers := Refers(tx.vin, IsCoinbase(tx), tx.height, rctOnly);
      places := TxReferences(txs, rctOnly, k, x - 1, |tx.vin|, front, RefersOf(done, k));
      assert tx.vin[..|tx.vin|] == tx.vin;
      KindsOfEvents(tx.vout, tx.vin, IsCoinbase(tx), tx.height, rctOnly);
      NoRefers(creates, k);
      RefersOfSplit(done, creates + refers, k);
      RefersOfSplit(creates, refers, k);
      assert [] + RefersOf(refers, k) == RefersOf(refers, k);
      NextTx(txs, rctOnly, k, x - 1, places);
    }
  }

  lemma NextTx(txs: seq<Tx>, rctOnly: bool, k: Key, x: nat, places: seq<Place>)
    requires x < |txs| && ReferencesBefore(txs, rctOnly, k, Place(x, |txs[x].vin|, 0), places)
    ensures ReferencesBefore(txs, rctOnly, k, Place(x + 1, 0, 0), places)
  {
    hide Absolute, InOrder;
    assert forall p :: ReferenceAt(txs, rctOnly, k, p) ==>
      (Before(p, Place(x, |txs[x].vin|, 0)) <==> Before(p, Place(x + 1, 0, 0)));
  }

  // ---- What is recorded --------------------------------------------------------------------------

  /** All places of outputs of the amount, in loop order. */
  ghost predicate ListsCreations(txs: seq<Tx>, rctOnly: bool, a: U64, places: seq<Place>) {
    InOrder(places) && forall p :: p in places <==> CreationAt(txs, rctOnly, a, p)
  }

  /** All places at which the output stands in a ring, in loop order. */
  ghost predicate ListsReferences(txs: seq<Tx>, rctOnly: bool, k: Key, places: seq<Place>) {
    InOrder(places) && forall p :: p in places <==> ReferenceAt(txs, rctOnly, k, p)
  }

  lemma PlacesExist(txs: seq<Tx>, rctOnly: bool, k: Key) returns (creations: seq<Place>, references: seq<Place>)
    ensures ListsCreations(txs, rctOnly, k.amount, creations) && ListsReferences(txs, rctOnly, k, references)
  {
    creations := AllCreations(txs, rctOnly, k.amount, |txs|);
    references := AllReferences(txs, rctOnly, k, |txs|);
  }

  /** The whole scan, for any transactions and any key `k`. It is entered exactly when
      its index is among 1 to the number of outputs of its amount, or it stands in a
      ring. Its references are those of the places where it stands, in order. Its
      height and flag are those of the transaction of the output with that number, or
      else of the first place where it stands. */
  lemma UsageByPlaces(txs: seq<Tx>, rctOnly: bool, k: Key, creations: seq<Place>, references: seq<Place>)
    requires ListsCreations(txs, rctOnly, k.amount, creations) && ListsReferences(txs, rctOnly, k, references)
    ensures Created(Events(txs, rctOnly), k.amount) == |creations|
    ensures var o := Fold(Events(txs, rctOnly)).outputs;
      && (k in o <==> 1 <= k.index <= |creations| || references != [])
      && (k in o ==>
            && |o[k].refs| == |references|
            && (forall m :: 0 <= m < |references| ==> RecordAt(txs, references[m], o[k].refs[m]))
            && var p := if 1 <= k.index <= |creations| then creations[k.index - 1] else references[0];
              p.x < |txs| && o[k].height == txs[p.x].height && (o[k].coinbase <==> txs[p.x].vin == [Gen]))
  {
    hide InOrder, Fold, Events, CreationAt, ReferenceAt;
    var es := Events(txs, rctOnly);
    assert txs[..|txs|] == txs;
    var cs := AllCreations(txs, rctOnly, k.amount, |txs|);
    CreationsOf(txs, rctOnly, k.amount, creations, cs);
    var rs := AllReferences(txs, rctOnly, k, |txs|);
    ReferencesOf(txs, rctOnly, k, references, rs);
    CreatesOfCount(es, k.amount);
    RefersOfRefs(es, k);
    FoldDescribes(es);
    if k in Fold(es).outputs {
      SourceEvent(es, k);
    }
  }

  lemma CreationsOf(txs: seq<Tx>, rctOnly: bool, a: U64, s: seq<Place>, t: seq<Place>)
    requires ListsCreations(txs, rctOnly, a, s) && CreationsBefore(txs, rctOnly, a, Place(|txs|, 0, 0), t)
    ensures s == t
  {
    InOrderIsUnique(s, t);
  }

  lemma ReferencesOf(txs: seq<Tx>, rctOnly: bool, k: Key, s: seq<Place>, t: seq<Place>)
    requires ListsReferences(txs, rctOnly, k, s) && ReferencesBefore(txs, rctOnly, k, Place(|txs|, 0, 0), t)
    ensures s == t
  {
    InOrderIsUnique(s, t);
  }

  lemma CreatesOfAt(es: seq<Event>, a: U64, p: nat)
    requires p < |es| && es[p].Create? && es[p].amount == a
    ensures Created(es[..p], a) < |CreatesOf(es, a)| && CreatesOf(es, a)[Created(es[..p], a)] == es[p]
  {
    hide CreatesOf, Created;
    assert es == es[..p] + [es[p]] + es[p + 1..];
    OneEvent(es[p], a, Key(a, 0));
    CreatesOfCount(es[..p], a);
    CreatesOfSplit(es[..p] + [es[p]], es[p + 1..], a);
    CreatesOfSplit(es[..p], [es[p]], a);
  }

  lemma RefersOfFirst(es: seq<Event>, k: Key, p: nat)
    requires p < |es| && es[p].Refer? && es[p].key == k && RefsTo(es[..p], k) == []
    ensures RefersOf(es, k) != [] && RefersOf(es, k)[0] == es[p]
  {
    hide RefersOf, RefsTo;
    assert es == es[..p] + [es[p]] + es[p + 1..];
    OneEvent(es[p], k.amount, k);
    RefersOfRefs(es[..p], k);
    RefersOfSplit(es[..p] + [es[p]], es[p + 1..], k);
    RefersOfSplit(es[..p], [es[p]], k);
  }

  /** The event whose data an output carries is the creation with its number, or else
      the first reference. */
  lemma SourceEvent(es: seq<Event>, k: Key)
    requires k in Fold(es).outputs
    ensures Created(es, k.amount) == |CreatesOf(es, k.amount)|
    ensures IsCreated(es, k) || RefersOf(es, k) != []
    ensures var e := if IsCreated(es, k) then CreatesOf(es, k.amount)[k.index - 1] else RefersOf(es, k)[0];
      Fold(es).outputs[k].coinbase == e.coinbase && Fold(es).outputs[k].height == e.height
  {
    hide Fold, CreatesOf, RefersOf, RefsTo;
    CreatesOfCount(es, k.amount);
    var p := InfoComesFromSource(es, k);
    if IsCreated(es, k) {
      CreatesOfAt(es, k.amount, p);
    } else {
      RefersOfFirst(es, k, p);
    }
  }

  /** A single coinbase output of amount 7: the tool reports output 1 of that
      amount, which does not exist, and not output 0. */
  lemma OffByOneExample(tx: Tx)
    requires tx == Tx(0, [Gen], [7])
    ensures var o := Fold(Events([tx], false)).outputs; Key(7, 1) in o && Key(7, 0) !in o
  {
    hide Fold, Events;
    var creations := [Place(0, 0, 0)];
    assert forall k, p :: !ReferenceAt([tx], false, k, p);
    UsageByPlaces([tx], false, Key(7, 1), creations, []);
    UsageByPlaces([tx], false, Key(7, 0), creations, []);
  }
}
