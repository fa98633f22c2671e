/** The entries of the web example's session table. */
module Sessions {
  /** Thirty minutes, in seconds. */
  const SESSION_TTL := 1800
  const MAX_SESSIONS := 32

  datatype Session = Session(id: string, used: int)

  type Table = map<string, Session>

  predicate Alive(item: Session, now: int) {
    now - item.used < SESSION_TTL
  }

  /** The sessions that `Cleanup` takes out of the table: all, or those that have expired. */
  function Expired(sessions: Table, all: bool, now: int): Table {
    map t | t in sessions && (all || !Alive(sessions[t], now)) :: sessions[t]
  }

  lemma Partition(before: Table, kept: Table, taken: Table)
    requires kept == before - taken.Keys && taken.Keys <= before.Keys
    ensures |kept| + |taken| == |before|
  {
    assert before.Keys == kept.Keys + taken.Keys;
  }
}
