/** The replication position tracker: the position changes only by
    appending one GTID or by being overwritten, and reading it returns the
    stored value. The mutex around it is concurrency plumbing and is not
    modelled. */
module PositionTracker {
  import opened RowcacheTypes

  /** Records that the transaction `g` has been processed. */
  function AppendGtid(st: State, g: Gtid): (r: State)
    ensures |r.pos| == |st.pos| + 1
    ensures r.pos[..|st.pos|] == st.pos && r.pos[|st.pos|] == g
    ensures r.(pos := st.pos) == st
  {
    st.(pos := st.pos + [g])
  }

  /** Overwrites the position. */
  function SetPosition(st: State, rp: ReplicationPosition): (r: State)
    ensures Position(r) == rp
    ensures r.(pos := st.pos) == st
  {
    st.(pos := rp)
  }

  /** The current position. */
  function Position(st: State): (p: ReplicationPosition)
  {
    st.pos
  }

  /** Reading the position after an append sees the old position extended
      by exactly that GTID, and setting the position to the value just read
      changes nothing. */
  lemma AppendThenRead(st: State, g: Gtid)
    ensures Position(AppendGtid(st, g)) == Position(st) + [g]
    ensures Position(SetPosition(st, Position(st))) == Position(st)
    ensures SetPosition(st, Position(st)) == st
  {
  }
}
