/**
 * The record shapes the handlers read and write (src/models.rs), with
 * timestamps as integers (seconds or any other monotone unit).
 */
module Models {

  import opened Wrappers

  type Timestamp = int

  /** The body of POST /shorten. */
  datatype CreateUrlRequest = CreateUrlRequest(
    url: string,
    customCode: Option<string>,
    expiresAt: Option<Timestamp>)

  /** The body of a successful POST /shorten (status 201). */
  datatype UrlResponse = UrlResponse(
    shortCode: string,
    originalUrl: string,
    shortUrl: string,
    expiresAt: Option<Timestamp>)

  /** A row of the `urls` table, keyed by `id` (the short code). */
  datatype UrlRecord = UrlRecord(
    id: string,
    originalUrl: string,
    createdAt: Timestamp,
    expiresAt: Option<Timestamp>)

  /** A row of the append-only `visits` table. */
  datatype Visit = Visit(
    urlId: string,
    ipAddress: Option<string>,
    userAgent: Option<string>,
    visitedAt: Timestamp)

  /** The columns of a visit reported by GET /stats/{code}. */
  datatype VisitStats = VisitStats(
    ipAddress: Option<string>,
    userAgent: Option<string>,
    visitedAt: Timestamp)

  /** The body of GET /stats/{code}, with the `original_url` field the handler sets. */
  datatype StatsResponse = StatsResponse(
    url: string,
    originalUrl: string,
    totalVisits: int,
    visits: seq<VisitStats>)

  /** The projection `SELECT ip_address, user_agent, visited_at`. */
  function ToVisitStats(v: Visit): VisitStats
  {
    VisitStats(v.ipAddress, v.userAgent, v.visitedAt)
  }
}
