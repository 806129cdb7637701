/** A controller as it takes part in the election, with deadlines on a clock nobody else shares. */
module Elector {
  import opened Optional
  import opened Leadership

  /** Leading ends at until, and nothing is requested before quiet. None is Go's zero time, before every reading. */
  datatype Standing = Standing(until: Option<Instant>, quiet: Option<Instant>)

  const OUTSIDE := Standing(None, None)

  predicate Leads(s: Standing, now: Instant) {
    s.until.Some? && now < s.until.value
  }

  predicate Waits(s: Standing, now: Instant) {
    s.quiet.Some? && now < s.quiet.value
  }

  /** What an answered call leaves: a deadline no later than the lease's own, because sent was before the database looked. */
  function Adopted(s: Standing, holder: string, sent: Instant, lease: Lease): Standing {
    s.(until := if lease.holder == holder && lease.Held() then Some(sent + lease.For()) else None)
  }

  function HandedOver(s: Standing, ttl: int, renew: int, now: Instant): Standing {
    Standing(None, Some(now + if 2 * renew > ttl then ttl else 2 * renew))
  }

  /** How a call to the database went: answered, failed before it did anything, or failed although it did. */
  datatype Reply = Answered | NeverArrived | AnswerLost

  class Elector {
    const holder: string
    const name: string
    const ttl: int
    const renew: int
    var until: Option<Instant>
    var quiet: Option<Instant>

    function View(): Standing
      reads this
    {
      Standing(until, quiet)
    }

    constructor (holder: string, name: string, ttl: int, renew: int)
      ensures this.holder == holder && this.name == name && View() == OUTSIDE
      ensures this.ttl == if ttl <= 0 then 15_000_000_000 else ttl
      ensures this.renew == if 0 < renew < this.ttl then renew else this.ttl / 3
      ensures 0 <= this.renew < this.ttl
    {
      this.holder, this.name := holder, name;
      var t := if ttl <= 0 then 15_000_000_000 else ttl;
      this.ttl := t;
      this.renew := if renew <= 0 || renew >= t then t / 3 else renew;
      until, quiet := None, None;
    }

    method Leading(now: Instant) returns (leading: bool)
      ensures leading == Leads(View(), now)
    {
      leading := until.Some? && now < until.value;
    }

    method HandOver(now: Instant, db: LeaseStore, dbNow: Instant, reply: Reply)
      modifies this`until, this`quiet, db
      ensures View() == HandedOver(old(View()), ttl, renew, now)
      ensures until == None && quiet.Some? && quiet.value - now <= ttl && quiet.value - now <= 2 * renew
      ensures quiet.value == now + ttl || quiet.value == now + 2 * renew
      ensures db.row == if reply.NeverArrived? then old(db.row) else Released(old(db.row), holder, dbNow)
    {
      var wait := 2 * renew;
      if wait > ttl {
        wait := ttl;
      }
      until := None;
      quiet := Some(now + wait);
      if !reply.NeverArrived? {
        db.ReleaseLease(holder, dbNow);
      }
    }

    method StepDown(now: Instant, db: LeaseStore, dbNow: Instant, reply: Reply)
      modifies this`until, db
      ensures !Leads(View(), now) && quiet == old(quiet)
      ensures !old(Leads(View(), now)) ==> until == old(until) && db.row == old(db.row)
      ensures old(Leads(View(), now)) ==>
        until == None && db.row == if reply.NeverArrived? then old(db.row) else Released(old(db.row), holder, dbNow)
    {
      var leading := Leading(now);
      if !leading {
        return;
      }
      until := None;
      if !reply.NeverArrived? {
        db.ReleaseLease(holder, dbNow);
      }
    }

    /**
     * One round of Run's loop: sent and after are this machine's clock when the request goes out and
     * when the answer is in, dbNow the database's; others leave the row as meanwhile says, read at
     * later, if the lease turns out to be taken.
     */
    method Once(db: LeaseStore, sent: Instant, dbNow: Instant, meanwhile: Option<Row>, later: Instant, reply: Reply, after: Instant,
                preferred: bool, release: Reply)
      requires ttl > 0 && holder != "" && (db.row.Some? ==> db.row.value.holder != "")
      requires sent <= after
      modifies this`until, this`quiet, db
      ensures old(Waits(View(), sent)) || reply.NeverArrived? ==> View() == old(View()) && db.row == old(db.row)
      ensures !old(Waits(View(), sent)) && reply.AnswerLost? ==>
        View() == old(View()) && db.row == AfterAcquire(old(db.row), holder, name, ttl, dbNow, meanwhile)
      ensures !old(Waits(View(), sent)) && reply.Answered? ==>
        var row := AfterAcquire(old(db.row), holder, name, ttl, dbNow, meanwhile);
        var took := Adopted(old(View()), holder, sent, Read(row, if Free(old(db.row), holder, dbNow) then dbNow else later));
        if Leads(took, after) && preferred
        then View() == HandedOver(took, ttl, renew, after) && db.row == (if release.NeverArrived? then row else Released(row, holder, dbNow))
        else View() == took && db.row == row
      ensures
        var free := old(db.row.None? || db.row.value.holder == holder || db.row.value.expiresAt <= dbNow);
        !old(Waits(View(), sent)) && reply.Answered? && free && !(preferred && after < sent + ttl) ==> until == Some(sent + ttl)
    {
      if quiet.Some? && sent < quiet.value {
        return;
      }
      if reply.NeverArrived? {
        return;
      }
      var lease := db.AcquireLease(holder, name, ttl, dbNow, meanwhile, later);
      if reply.AnswerLost? {
        return;
      }
      if lease.holder == holder && lease.Held() {
        until := Some(sent + lease.For());
      } else {
        until := None;
      }
      var leading := Leading(after);
      if leading && preferred {
        HandOver(after, db, dbNow, release);
      }
    }
  }

  function AfterAcquire(row: Option<Row>, holder: string, name: string, ttl: int, now: Instant, meanwhile: Option<Row>): Option<Row> {
    if Free(row, holder, now) then Some(Taken(row, holder, name, ttl, now)) else meanwhile
  }
}
