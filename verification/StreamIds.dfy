/** How a client picks the id of a new stream: round and round through 1..65535, never an id in use. */
module StreamIds {
  import opened SeqNum

  /** The id `k` places after `start` in the cycle of the nonzero ids. */
  function Nth(start: u16, k: nat): (id: u16)
    requires start != 0 && k <= 65535
    ensures id != 0
  {
    if start + k <= 65535 then start + k else start + k - 65535
  }

  /** Every nonzero id is met within one round. */
  lemma NthReaches(start: u16, id: u16)
    requires start != 0 && id != 0
    ensures exists k: nat :: k < 65535 && Nth(start, k) == id
  {
    var k: nat := if id >= start then id - start else id + 65535 - start;
    assert Nth(start, k) == id;
  }

  /** The id is free, and every id before it in the cycle from `start` is in use. */
  ghost predicate FirstFree(active: set<u16>, start: u16, id: u16)
    requires start != 0
  {
    id !in active &&
    exists k: nat ::
      k < 65535 && id == Nth(start, k) && forall j: nat :: j < k && j <= 65535 ==> Nth(start, j) in active
  }

  lemma FirstFreeAt(active: set<u16>, start: u16, k: nat, id: u16)
    requires start != 0 && k < 65535 && id == Nth(start, k) && id !in active
    requires forall j: nat :: j < k && j <= 65535 ==> Nth(start, j) in active
    ensures FirstFree(active, start, id)
  {
  }

  class Client {
    var activeStreams: set<u16>
    var lastStreamId: u16

    constructor ()
      ensures activeStreams == {} && lastStreamId == 0
    {
      activeStreams, lastStreamId := {}, 0;
    }

    function Start(): (s: u16)
      reads this
      ensures s != 0
    {
      if Inc(lastStreamId) == 0 then 1 else Inc(lastStreamId)
    }

    /**
     * get_new_stream_id: the first free id after the last one given out, and failure only when none is free.
     */
    method GetNewStreamId() returns (id: u16, ok: bool)
      modifies this`lastStreamId
      ensures ok ==> id != 0 && lastStreamId == id && FirstFree(activeStreams, old(Start()), id)
      ensures !ok ==> id == 0 && lastStreamId == old(lastStreamId) && forall x: u16 :: x != 0 ==> x in activeStreams
    {
      var start := Inc(lastStreamId);
      if start == 0 { start := 1; }
      id := start;
      var wrapped := false;
      ghost var k: nat := 0;
      while true
        invariant k < 65535
        invariant if wrapped then 0 < id < start && k == id + 65535 - start else start <= id && k == id - start
        invariant forall j: nat :: j < k && j <= 65535 ==> Nth(start, j) in activeStreams
        invariant lastStreamId == old(lastStreamId)
        decreases 65535 - k
      {
        if id !in activeStreams {
          FirstFreeAt(activeStreams, start, k, id);
          lastStreamId := id;
          return id, true;
        }
        id := Inc(id);
        k := k + 1;
        if id == 0 {
          if wrapped {
            assert false;
          } else {
            id := 1;
            wrapped := true;
          }
        }
        if wrapped && id == start {
          RoundIsFull(start, k, activeStreams);
          return 0, false;
        }
      }
    }
  }

  /** Back at the start with nothing free on the way: nothing is free. */
  lemma RoundIsFull(start: u16, k: nat, active: set<u16>)
    requires start != 0 && k == 65535
    requires forall j: nat :: j < k && j <= 65535 ==> Nth(start, j) in active
    ensures forall x: u16 :: x != 0 ==> x in active
  {
    forall x: u16 | x != 0 ensures x in active {
      NthReaches(start, x);
    }
  }
}
