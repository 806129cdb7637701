/** The one row that says which controller acts, and the three statements that touch it. */
module Leadership {
  import opened Optional

  /** A reading of a clock, in ticks of any length. */
  type Instant = int

  /** A row and the reading of the database's clock that it is to be measured against. */
  datatype Lease = Lease(holder: string, name: string, acquiredAt: Instant, renewedAt: Instant, expiresAt: Instant, now: Instant) {
    predicate Held() {
      holder != "" && expiresAt > now
    }

    function For(): (d: int)
      ensures d > 0 <==> Held()
      ensures Held() ==> now + d == expiresAt
    {
      if !Held() then 0 else expiresAt - now
    }
  }

  datatype Row = Row(holder: string, name: string, acquiredAt: Instant, renewedAt: Instant, expiresAt: Instant)

  /** The WHERE of the upsert: nobody has it, this holder has it, or its expiry is not after now. */
  predicate Free(row: Option<Row>, holder: string, now: Instant) {
    row.None? || row.value.holder == holder || row.value.expiresAt <= now
  }

  function Taken(row: Option<Row>, holder: string, name: string, ttl: int, now: Instant): Row {
    var since := if row.Some? && row.value.holder == holder then row.value.acquiredAt else now;
    Row(holder, name, since, now, now + ttl)
  }

  /** The holder's lease runs for ttl from now, whatever was left of it; it has had the lease since it first took it. */
  predicate TakenAt(was: Option<Row>, row: Option<Row>, holder: string, name: string, ttl: int, now: Instant) {
    && row.Some? && row.value.holder == holder && row.value.name == name
    && row.value.expiresAt == now + ttl && row.value.renewedAt == now
    && (was.Some? && was.value.holder == holder ==> row.value.acquiredAt == was.value.acquiredAt)
    && (was.None? || was.value.holder != holder ==> row.value.acquiredAt == now)
  }

  function Read(row: Option<Row>, now: Instant): Lease {
    match row
    case None => Lease("", "", 0, 0, 0, now)
    case Some(r) => Lease(r.holder, r.name, r.acquiredAt, r.renewedAt, r.expiresAt, now)
  }

  function Released(row: Option<Row>, holder: string, now: Instant): Option<Row> {
    if row.Some? && row.value.holder == holder then Some(row.value.(expiresAt := now)) else row
  }

  /** The leadership table. Each method is one statement, and a statement is atomic. */
  class LeaseStore {
    var row: Option<Row>

    constructor ()
      ensures row == None
    {
      row := None;
    }

    /** The INSERT ... ON CONFLICT DO UPDATE ... RETURNING: no row comes back when someone else has it. */
    method Upsert(holder: string, name: string, ttl: int, now: Instant) returns (lease: Option<Lease>)
      modifies this
      ensures old(Free(row, holder, now)) ==> row == Some(old(Taken(row, holder, name, ttl, now))) && lease == Some(Read(row, now))
      ensures !old(Free(row, holder, now)) ==> row == old(row) && lease == None
      ensures lease.Some? <==> old(row.None? || row.value.holder == holder || row.value.expiresAt <= now)
      ensures lease.Some? ==> TakenAt(old(row), row, holder, name, ttl, now) && (ttl > 0 && holder != "" ==> lease.value.For() == ttl)
    {
      if row == None {
        row := Some(Row(holder, name, now, now, now + ttl));
        lease := Some(Read(row, now));
      } else if row.value.holder == holder || row.value.expiresAt <= now {
        var since := now;
        if row.value.holder == holder { since := row.value.acquiredAt; }
        row := Some(Row(holder, name, since, now, now + ttl));
        lease := Some(Read(row, now));
      } else {
        lease := None;
      }
    }

    method Leadership(now: Instant) returns (lease: Lease)
      ensures lease == Read(row, now)
    {
      lease := if row.None? then Lease("", "", 0, 0, 0, now) else
        Lease(row.value.holder, row.value.name, row.value.acquiredAt, row.value.renewedAt, row.value.expiresAt, now);
    }

    /**
     * Takes the lease, renews it, or says who has it. These are two statements: when the first finds
     * the lease taken, meanwhile is the row as others have left it by the time the second one reads it.
     */
    method AcquireLease(holder: string, name: string, ttl: int, now: Instant, meanwhile: Option<Row>, later: Instant)
      returns (lease: Lease)
      requires ttl > 0 && holder != "" && (row.Some? ==> row.value.holder != "")
      modifies this
      ensures old(Free(row, holder, now)) ==>
        row == Some(old(Taken(row, holder, name, ttl, now))) && lease == Read(row, now) && lease.Held() && lease.holder == holder
      ensures !old(Free(row, holder, now)) ==> row == meanwhile && lease == Read(meanwhile, later)
      ensures old(row.None? || row.value.holder == holder || row.value.expiresAt <= now) ==>
        TakenAt(old(row), row, holder, name, ttl, now) && lease.holder == holder && lease.For() == ttl
      ensures meanwhile == old(row) && later == now ==> lease.Held() && (lease.holder == holder <==> old(Free(row, holder, now)))
    {
      var mine := Upsert(holder, name, ttl, now);
      if mine.Some? {
        lease := mine.value;
      } else {
        row := meanwhile;
        lease := Leadership(later);
      }
    }

    method ReleaseLease(holder: string, now: Instant)
      modifies this
      ensures row == Released(old(row), holder, now)
      ensures row.Some? <==> old(row).Some?
      ensures row.Some? && row.value.holder == holder ==> row == Some(old(row).value.(expiresAt := now))
      ensures row.Some? && row.value.holder != holder ==> row == old(row)
    {
      if row.Some? && row.value.holder == holder {
        row := Some(row.value.(expiresAt := now));
      }
    }
  }
}
