/** The lockout table of the authentication middleware: what each of its critical
    sections does, as functions of the table. */
module AuthSpec {

  /** Instants and durations, in nanoseconds. */
  const MINUTE: int := 60_000_000_000
  const MAX_FAILURES: nat := 10
  const LOCKOUT: int := 5 * MINUTE
  const ENTRY_TTL: int := 30 * MINUTE

  /** The zero time that a new entry's fields start from. */
  const NO_TIME: int := 0

  datatype Entry = Entry(count: nat, lockedAt: int, lastSeen: int)

  type Table = map<string, Entry>

  predicate Locked(e: Entry) {
    e.count >= MAX_FAILURES
  }

  /** The lockout still holds at time `now`. */
  predicate Running(e: Entry, now: int) {
    Locked(e) && now - e.lockedAt < LOCKOUT
  }

  predicate Expired(e: Entry, now: int) {
    Locked(e) && now - e.lockedAt >= LOCKOUT
  }

  predicate Stale(e: Entry, now: int) {
    now - e.lastSeen >= ENTRY_TTL
  }

  predicate Blocked(t: Table, ip: string, now: int) {
    ip in t && Running(t[ip], now)
  }

  /** The check before any work resets an expired lockout. */
  function Check(t: Table, ip: string, now: int): Table {
    if ip in t && Expired(t[ip], now) then t - {ip} else t
  }

  /** A valid key clears the record. */
  function Clear(t: Table, ip: string): Table {
    t - {ip}
  }

  /** One more failure; `now` was read before the table was locked. */
  function Record(t: Table, ip: string, now: int): Table {
    var count := (if ip in t then t[ip].count else 0) + 1;
    var lockedAt := if ip in t then t[ip].lockedAt else NO_TIME;
    t[ip := Entry(count, if count >= MAX_FAILURES then now else lockedAt, now)]
  }

  /** What one pass of the sweeper leaves, with either rule or with the second only. */
  function Sweep(t: Table, now: int, both: bool): Table {
    map ip | ip in t && !(both && Expired(t[ip], now)) && !Stale(t[ip], now) :: t[ip]
  }
}
