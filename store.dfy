/**
 * The relational backend the handlers talk to, as two tables held in one
 * object: `urls`, keyed by short code, and the append-only `visits` log.
 * Each SQL statement the handlers issue is one method. When the backend is
 * unreachable (`outage`), every statement fails with that error and changes
 * nothing.
 */
module Store {

  import opened Wrappers
  import opened Errors
  import opened Models
  import Stats

  /** A statement's outcome: its value, or the backend's error. */
  datatype DbResult<+T> = Ok(value: T) | Err(error: DbError)

  /** The error the primary key on `urls.id` raises for a second row with the same id. */
  const DuplicateKey := DbError("UNIQUE constraint failed: urls.id")

  /** Every row of `urls` is stored under its own id. */
  ghost predicate KeysMatchIds(urls: map<string, UrlRecord>)
  {
    forall code :: code in urls ==> urls[code].id == code
  }

  class Database {
    var urls: map<string, UrlRecord>
    var visits: seq<Visit>
    const outage: Option<DbError>
    /** How many `SELECT EXISTS` statements have been issued. */
    ghost var existenceChecks: nat

    ghost predicate Valid()
      reads this
    {
      KeysMatchIds(urls)
    }

    constructor (outage: Option<DbError>)
      ensures Valid()
      ensures urls == map[] && visits == [] && this.outage == outage && existenceChecks == 0
    {
      urls := map[];
      visits := [];
      this.outage := outage;
      existenceChecks := 0;
    }

    /** `SELECT EXISTS(SELECT 1 FROM urls WHERE id = ?)`. */
    method Exists(code: string) returns (r: DbResult<bool>)
      modifies this`existenceChecks
      ensures existenceChecks == old(existenceChecks) + 1
      ensures outage.Some? ==> r == Err(outage.value)
      ensures outage.None? ==> r == Ok(code in urls)
    {
      existenceChecks := existenceChecks + 1;
      if outage.Some? {
        r := Err(outage.value);
      } else {
        r := Ok(code in urls);
      }
    }

    /** `SELECT * FROM urls WHERE id = ?` with `fetch_optional`. */
    method FindUrl(code: string) returns (r: DbResult<Option<UrlRecord>>)
      ensures outage.Some? ==> r == Err(outage.value)
      ensures outage.None? ==> r.Ok? && (r.value.Some? <==> code in urls)
      ensures outage.None? && code in urls ==> r.value.value == urls[code]
    {
      if outage.Some? {
        r := Err(outage.value);
      } else if code in urls {
        r := Ok(Some(urls[code]));
      } else {
        r := Ok(None);
      }
    }

    /** `INSERT INTO urls (id, original_url, created_at, expires_at)`: the
        primary key rejects a second row with the same id. */
    method InsertUrl(row: UrlRecord) returns (r: DbResult<()>)
      requires Valid()
      modifies this`urls
      ensures Valid()
      ensures outage.Some? ==> r == Err(outage.value) && urls == old(urls)
      ensures outage.None? && row.id in old(urls) ==> r == Err(DuplicateKey) && urls == old(urls)
      ensures outage.None? && row.id !in old(urls) ==> r == Ok(()) && urls == old(urls)[row.id := row]
    {
      if outage.Some? {
        r := Err(outage.value);
      } else if row.id in urls {
        r := Err(DuplicateKey);
      } else {
        urls := urls[row.id := row];
        r := Ok(());
      }
    }

    /** `INSERT INTO visits (url_id, ip_address, user_agent, visited_at)`. */
    method InsertVisit(v: Visit) returns (r: DbResult<()>)
      modifies this`visits
      ensures outage.Some? ==> r == Err(outage.value) && visits == old(visits)
      ensures outage.None? ==> r == Ok(()) && visits == old(visits) + [v]
    {
      if outage.Some? {
        r := Err(outage.value);
      } else {
        visits := visits + [v];
        r := Ok(());
      }
    }

    /** `SELECT ip_address, user_agent, visited_at FROM visits WHERE url_id = ?
        ORDER BY visited_at DESC LIMIT limit`. */
    method RecentVisits(code: string, limit: nat) returns (r: DbResult<seq<VisitStats>>)
      ensures outage.Some? ==> r == Err(outage.value)
      ensures outage.None? ==> r == Ok(Stats.Window(visits, code, limit))
    {
      if outage.Some? {
        r := Err(outage.value);
      } else {
        r := Ok(Stats.Window(visits, code, limit));
      }
    }

    /** `SELECT COUNT(*) FROM visits WHERE url_id = ?`. */
    method CountVisits(code: string) returns (r: DbResult<nat>)
      ensures outage.Some? ==> r == Err(outage.value)
      ensures outage.None? ==> r == Ok(Stats.CountFor(visits, code))
    {
      if outage.Some? {
        r := Err(outage.value);
      } else {
        r := Ok(Stats.CountFor(visits, code));
      }
    }
  }
}
