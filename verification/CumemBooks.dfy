/**
  Each bookkeeping step of the allocator keeps the books right and leaves every intact range intact.
*/
module CumemBooks {
  import opened CumemDriver
  import opened CumemSteps
  import opened CumemSafety

  /** Every owned range that is mapped can be found through its host cells. */
  ghost predicate AllIntact(m: Machine, b: Books) {
    forall p <- b.owned :: Intact(m.cells, b.regions, p, b.owned[p].cell0)
  }

  /** From one pair of machine and books to the next. */
  ghost predicate Keeps(m: Machine, b: Books, m1: Machine, b1: Books) {
    Sound(m1, b1) && (AllIntact(m, b) ==> AllIntact(m1, b1))
  }

  lemma {:induction false} KeepsTrans(m: Machine, b: Books, m1: Machine, b1: Books, m2: Machine, b2: Books)
    requires Keeps(m, b, m1, b1) && Keeps(m1, b1, m2, b2)
    ensures Keeps(m, b, m2, b2)
  {
  }

  /** The counters and flags do not matter. */
  lemma {:induction false} FlagsKeep(m: Machine, b: Books, m1: Machine)
    requires Sound(m, b) && m1 == m.(callbacks := m1.callbacks, errorCode := m1.errorCode, asked := m1.asked)
    ensures Keeps(m, b, m1, b)
  {
    forall q | q in b.owned ensures OwnerOk(m1, b, q) {
      assert OwnerOk(m, b, q);
    }
    forall q | q in m1.table ensures q in b.owned || StaleOk(m1, q) {
      assert q in b.owned || StaleOk(m, q);
    }
  }

  /** A change of driver, cells and table that the owners do not notice. */
  lemma {:induction false} OthersKeep(m: Machine, b: Books, m1: Machine, b1: Books)
    requires Sound(m, b) && Consistent(m1.driver, b1.regions) && b1.regions == b.regions && b1.owned == b.owned
    requires Settles(m.driver, m1.driver) && m.nextCell <= m1.nextCell
    requires forall q <- b.owned :: q in m1.driver.reserved && m1.driver.reserved[q] == m.driver.reserved[q]
    requires forall q <- b.owned ::
               q in m1.table && m1.table[q] == m.table[q] && SameCells(m.cells, m1.cells, b.owned[q])
    requires forall q <- m1.table :: q in b.owned || StaleOk(m1, q)
    requires Accounted(m1.driver.reserved, b1.owned, b1.lost)
    ensures Keeps(m, b, m1, b1)
  {
    forall q | q in b.owned
      ensures OwnerOk(m1, b1, q)
      ensures Intact(m.cells, b.regions, q, b.owned[q].cell0) ==> Intact(m1.cells, b1.regions, q, b1.owned[q].cell0)
    {
      assert OwnerOk(m, b, q);
      RecordKept(m.driver, m.cells, b.regions, q, b.owned[q], m1.driver, m1.cells, b1.regions);
    }
  }

  lemma {:induction false} OwnedFacts(m: Machine, b: Books)
    requires Sound(m, b)
    ensures forall q <- b.owned :: q in m.driver.reserved && q in m.table && m.table[q] == b.owned[q]
    ensures forall q <- b.owned :: b.owned[q].cell0 + |b.owned[q].sizes| <= m.nextCell
  {
    forall q | q in b.owned
      ensures q in m.driver.reserved && q in m.table && m.table[q] == b.owned[q]
      ensures b.owned[q].cell0 + |b.owned[q].sizes| <= m.nextCell
    {
      assert OwnerOk(m, b, q);
    }
  }

  /** A driver with other reservations, but those of the owners. */
  lemma {:induction false} DriverKeeps(m: Machine, b: Books, d: Driver, lost: set<nat>)
    requires Sound(m, b) && Consistent(d, b.regions) && d == m.driver.(reserved := d.reserved)
    requires forall q <- b.owned :: q in d.reserved && d.reserved[q] == m.driver.reserved[q]
    requires Accounted(d.reserved, b.owned, lost)
    ensures Keeps(m, b, m.(driver := d), b.(lost := lost))
  {
    OwnedFacts(m, b);
    assert forall q <- m.table :: q in b.owned || StaleOk(m, q);
    OthersKeep(m, b, m.(driver := d), b.(lost := lost));
  }

  lemma {:induction false} ReserveStep(m: Machine, b: Books, p: nat, size: nat)
    requires Sound(m, b) && CanReserve(m.driver, p, size)
    ensures p !in b.owned && p !in b.regions && p !in b.lost
    ensures Keeps(m, b, m.(driver := m.driver.(reserved := m.driver.reserved[p := size])), b.(lost := b.lost + {p}))
  {
    var d := m.driver.(reserved := m.driver.reserved[p := size]);
    ReserveKeeps(m.driver, b.regions, p, size);
    OwnedFacts(m, b);
    DriverKeeps(m, b, d, b.lost + {p});
  }

  lemma {:induction false} UnreserveStep(m: Machine, b: Books, p: nat, size: nat)
    requires Sound(m, b) && p in b.lost && CanFreeAddress(m.driver, p, size)
    ensures Keeps(m, b, m.(driver := m.driver.(reserved := m.driver.reserved - {p})), b.(lost := b.lost - {p}))
  {
    var d := m.driver.(reserved := m.driver.reserved - {p});
    UnreserveKeeps(m.driver, b.regions, p, size);
    OwnedFacts(m, b);
    DriverKeeps(m, b, d, b.lost - {p});
  }

  lemma {:induction false} GiveBackStep(m: Machine, b: Books, p: nat, size: nat)
    requires Sound(m, b) && p in b.lost
    ensures CanFreeAddress(m.driver, p, size) <==> p !in b.regions && m.driver.reserved[p] == size
    ensures Keeps(m, b, GiveBack(m, p, size), if CanFreeAddress(m.driver, p, size) then b.(lost := b.lost - {p}) else b)
  {
    CanFreeIff(m.driver, b.regions, p, size);
    if CanFreeAddress(m.driver, p, size) {
      UnreserveStep(m, b, p, size);
    } else {
      FlagsKeep(m, b, GiveBack(m, p, size));
    }
  }

  /** Cells that no owner uses can be freed. */
  lemma {:induction false} DropStep(m: Machine, b: Books, rec: Record)
    requires Sound(m, b) && forall q <- b.owned :: Disjoint(rec, b.owned[q])
    ensures Keeps(m, b, DropCells(m, rec), b)
  {
    OwnedFacts(m, b);
    assert forall q <- m.table :: q in b.owned || StaleOk(m, q);
    OthersKeep(m, b, DropCells(m, rec), b);
  }

  lemma {:induction false} GiveBackAndDrop(m: Machine, b: Books, p: nat, size: nat, rec: Record)
    requires Sound(m, b) && p in b.lost && forall q <- b.owned :: Disjoint(rec, b.owned[q])
    ensures CanFreeAddress(m.driver, p, size) <==> p !in b.regions && m.driver.reserved[p] == size
    ensures Keeps(m, b, DropCells(GiveBack(m, p, size), rec),
                  if CanFreeAddress(m.driver, p, size) then b.(lost := b.lost - {p}) else b)
  {
    var b1 := if CanFreeAddress(m.driver, p, size) then b.(lost := b.lost - {p}) else b;
    GiveBackStep(m, b, p, size);
    DropStep(GiveBack(m, p, size), b1, rec);
    KeepsTrans(m, b, GiveBack(m, p, size), b1, DropCells(GiveBack(m, p, size), rec), b1);
  }

  /** Cells from `nextCell` on are nobody's. */
  lemma {:induction false} FreshCellsStep(m: Machine, b: Books, cells: map<nat, nat>, next: nat)
    requires Sound(m, b) && m.nextCell <= next
    requires forall c: nat | c < m.nextCell :: (c in cells <==> c in m.cells) && (c in cells ==> cells[c] == m.cells[c])
    ensures Keeps(m, b, m.(cells := cells, nextCell := next), b)
  {
    OwnedFacts(m, b);
    assert forall q <- m.table :: q in b.owned || StaleOk(m, q);
    OthersKeep(m, b, m.(cells := cells, nextCell := next), b);
  }

  lemma {:induction false} TakeStep(w: World, m: Machine, b: Books, n: nat)
    requires Sound(m, b)
    ensures var (m1, taken) := TakeAll(w, m, n);
            && Keeps(m, b, m1, b) && (taken ==> HasCells(m1.cells, m.nextCell, n) && m1.nextCell == m.nextCell + n)
            && m1 == m.(cells := m1.cells, nextCell := m1.nextCell, asked := m1.asked)
  {
    var m1 := TakeAll(w, m, n).0;
    TakenIs(m.cells, w.junk, m.nextCell, Yes(w.says, m.asked, n));
    FreshCellsStep(m, b, m1.cells, m1.nextCell);
    FlagsKeep(m.(cells := m1.cells, nextCell := m1.nextCell), b, m1);
  }

  lemma {:induction false} FreshIsDisjoint(m: Machine, b: Books, rec: Record)
    requires Sound(m, b) && rec.cell0 >= m.nextCell
    ensures forall q <- b.owned :: Disjoint(rec, b.owned[q])
  {
    forall q | q in b.owned ensures Disjoint(rec, b.owned[q]) {
      assert OwnerOk(m, b, q);
    }
  }

  /** An entry for a pointer nobody owns, once its cells are gone. */
  lemma {:induction false} StaleEntryStep(m: Machine, b: Books, p: nat, rec: Record)
    requires Sound(m, b) && p !in b.owned && rec.sizes != [] && rec.cell0 < m.nextCell && rec.cell0 !in m.cells
    ensures Keeps(m, b, m.(table := m.table[p := rec]), b)
  {
    OwnedFacts(m, b);
    assert forall q <- m.table :: q in b.owned || StaleOk(m, q);
    OthersKeep(m, b, m.(table := m.table[p := rec]), b);
  }

  /** A stale entry goes. */
  lemma {:induction false} StaleGoneStep(m: Machine, b: Books, p: nat)
    requires Sound(m, b) && p !in b.owned
    ensures Keeps(m, b, m.(table := m.table - {p}), b)
  {
    OwnedFacts(m, b);
    assert forall q <- m.table :: q in b.owned || StaleOk(m, q);
    OthersKeep(m, b, m.(table := m.table - {p}), b);
  }

  function OwnBooks(b: Books, p: nat, rec: Record): Books {
    b.(owned := b.owned[p := rec], lost := b.lost - {p})
  }

  lemma {:induction false} OwnOwners(m: Machine, b: Books, p: nat, rec: Record)
    requires Sound(m, b) && RecordOk(m.driver, m.cells, b.regions, p, rec) && rec.cell0 + |rec.sizes| <= m.nextCell
    ensures var m1, b1 := m.(table := m.table[p := rec]), OwnBooks(b, p, rec);
            forall q <- b1.owned :: OwnerOk(m1, b1, q)
  {
    var m1, b1 := m.(table := m.table[p := rec]), OwnBooks(b, p, rec);
    forall q | q in b1.owned ensures OwnerOk(m1, b1, q) {
      if q != p {
        assert OwnerOk(m, b, q);
      }
    }
  }

  lemma {:induction false} OwnTable(m: Machine, b: Books, p: nat, rec: Record)
    requires Sound(m, b)
    ensures var m1 := m.(table := m.table[p := rec]);
            forall q <- m1.table :: q in b.owned[p := rec] || StaleOk(m1, q)
  {
    var m1 := m.(table := m.table[p := rec]);
    forall q | q in m1.table && q != p ensures q in b.owned || StaleOk(m1, q) {
      assert q in b.owned || StaleOk(m, q);
    }
  }

  lemma {:induction false} OwnAccounts(reserved: map<nat, nat>, owned: map<nat, Record>, lost: set<nat>, p: nat,
                                       rec: Record)
    requires CellsApart(owned) && Accounted(reserved, owned, lost) && p in lost
    requires forall q <- owned :: Disjoint(rec, owned[q])
    ensures CellsApart(owned[p := rec]) && Accounted(reserved, owned[p := rec], lost - {p})
  {
  }

  lemma {:induction false} OwnIsSound(m: Machine, b: Books, p: nat, rec: Record)
    requires Sound(m, b) && p in b.lost && RecordOk(m.driver, m.cells, b.regions, p, rec)
    requires rec.cell0 + |rec.sizes| <= m.nextCell
    requires forall q <- b.owned :: Disjoint(rec, b.owned[q])
    ensures Sound(m.(table := m.table[p := rec]), OwnBooks(b, p, rec))
  {
    OwnOwners(m, b, p, rec);
    OwnTable(m, b, p, rec);
    OwnAccounts(m.driver.reserved, b.owned, b.lost, p, rec);
  }

  /** The client gets a pointer. */
  lemma {:induction false} OwnStep(m: Machine, b: Books, p: nat, rec: Record)
    requires Sound(m, b) && p in b.lost && RecordOk(m.driver, m.cells, b.regions, p, rec)
    requires rec.cell0 + |rec.sizes| <= m.nextCell
    requires Intact(m.cells, b.regions, p, rec.cell0)
    requires forall q <- b.owned :: Disjoint(rec, b.owned[q])
    ensures Keeps(m, b, m.(table := m.table[p := rec]), OwnBooks(b, p, rec))
  {
    OwnIsSound(m, b, p, rec);
  }

  function DisownBooks(b: Books, p: nat): Books {
    b.(owned := b.owned - {p}, lost := b.lost + {p})
  }

  lemma {:induction false} DisownOwners(m: Machine, b: Books, p: nat)
    requires Sound(m, b) && p in b.owned
    ensures var m1, b1 := m.(table := m.table - {p}), DisownBooks(b, p);
            forall q <- b1.owned :: OwnerOk(m1, b1, q)
  {
    var m1, b1 := m.(table := m.table - {p}), DisownBooks(b, p);
    forall q | q in b1.owned ensures OwnerOk(m1, b1, q) {
      assert OwnerOk(m, b, q);
    }
  }

  lemma {:induction false} DisownTable(m: Machine, b: Books, p: nat)
    requires Sound(m, b) && p in b.owned
    ensures var m1 := m.(table := m.table - {p});
            forall q <- m1.table :: q in b.owned - {p} || StaleOk(m1, q)
  {
    var m1 := m.(table := m.table - {p});
    forall q | q in m1.table ensures q in b.owned - {p} || StaleOk(m1, q) {
      assert q in b.owned || StaleOk(m, q);
    }
  }

  lemma {:induction false} DisownAccounts(reserved: map<nat, nat>, owned: map<nat, Record>, lost: set<nat>, p: nat)
    requires CellsApart(owned) && Accounted(reserved, owned, lost) && p in owned
    ensures CellsApart(owned - {p}) && Accounted(reserved, owned - {p}, lost + {p})
    ensures forall q <- owned - {p} :: Disjoint(owned[p], owned[q])
  {
  }

  /** A pointer leaves the table and its owner. */
  lemma {:induction false} DisownStep(m: Machine, b: Books, p: nat)
    requires Sound(m, b) && p in b.owned
    ensures Keeps(m, b, m.(table := m.table - {p}), DisownBooks(b, p))
    ensures forall q <- b.owned - {p} :: Disjoint(b.owned[p], b.owned[q])
  {
    DisownOwners(m, b, p);
    DisownTable(m, b, p);
    DisownAccounts(m.driver.reserved, b.owned, b.lost, p);
  }
}
