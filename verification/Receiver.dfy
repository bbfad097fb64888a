/** What AppendEntries1 does to a log, against the receiver of Figure 2 of the Raft paper. */
module Receiver {
  import opened RaftTypes
  import opened RaftHandlers

  /** A batch that continues the log position prev: consecutive indices. */
  predicate Contiguous(prev: int, entries: seq<Entry>) {
    forall k :: 0 <= k < |entries| ==> entries[k].index == prev + 1 + k
  }

  /** Same index, same term, different command: the code aborts. */
  predicate Clash(logs: seq<Entry>, prev: int, entries: seq<Entry>) {
    exists k :: 0 <= k < |entries| && 0 <= prev + k < |logs| &&
                logs[prev + k].term == entries[k].term && logs[prev + k].command != entries[k].command
  }

  /** The log after the loop, position by position. */
  predicate Merged(logs: seq<Entry>, prev: int, entries: seq<Entry>, r: seq<Entry>)
    requires 0 <= prev
  {
    && |r| == Max(|logs|, prev + |entries|)
    && (forall k :: 0 <= k < |r| && (k < prev || prev + |entries| <= k) && k < |logs| ==> r[k] == logs[k])
    && (forall k :: prev <= k < prev + |entries| && k < |r| ==> r[k] == entries[k - prev])
  }

  lemma PlaceMerges(logs: seq<Entry>, prev: int, entries: seq<Entry>, soFar: seq<Entry>, e: Entry)
    requires Indexed(0, logs) && 0 <= prev <= |logs| && e.index == prev + 1 + |entries|
    requires Merged(logs, prev, entries, soFar) && Indexed(0, soFar)
    ensures
      var at := prev + |entries|;
      Place(0, soFar, e).Done? <==>
        !(at < |logs| && logs[at].term == e.term && logs[at].command != e.command)
    ensures
      var r := Place(0, soFar, e);
      r.Done? ==> Merged(logs, prev, entries + [e], r.value) && Indexed(0, r.value)
  {
  }

  lemma ClashSplits(logs: seq<Entry>, prev: int, entries: seq<Entry>)
    requires |entries| > 0 && 0 <= prev
    ensures
      var last := |entries| - 1;
      Clash(logs, prev, entries) <==>
        Clash(logs, prev, entries[..last])
        || (prev + last < |logs| && logs[prev + last].term == entries[last].term
            && logs[prev + last].command != entries[last].command)
  {
    var last := |entries| - 1;
    var init := entries[..last];
    if Clash(logs, prev, init) {
      var k :| 0 <= k < |init| && 0 <= prev + k < |logs| &&
               logs[prev + k].term == init[k].term && logs[prev + k].command != init[k].command;
      assert entries[k] == init[k];
    }
    if Clash(logs, prev, entries) {
      var k :| 0 <= k < |entries| && 0 <= prev + k < |logs| &&
               logs[prev + k].term == entries[k].term && logs[prev + k].command != entries[k].command;
      assert k < last ==> init[k] == entries[k];
    }
  }

  /** The loop aborts exactly on a clash; otherwise the batch stands at its place, and entries
      before and beyond it are untouched. */
  lemma {:induction false} OverwriteMerges(logs: seq<Entry>, prev: int, entries: seq<Entry>)
    requires Indexed(0, logs) && 0 <= prev <= |logs| && Contiguous(prev, entries)
    ensures Overwrite(0, logs, entries).Done? <==> !Clash(logs, prev, entries)
    ensures
      var r := Overwrite(0, logs, entries);
      r.Done? ==> Merged(logs, prev, entries, r.value) && Indexed(0, r.value)
    decreases |entries|
  {
    if |entries| > 0 {
      var last := |entries| - 1;
      var init := entries[..last];
      OverwriteMerges(logs, prev, init);
      ClashSplits(logs, prev, entries);
      var soFar := Overwrite(0, logs, init);
      if soFar.Done? {
        PlaceMerges(logs, prev, init, soFar.value, entries[last]);
        assert init + [entries[last]] == entries;
      }
    }
  }
}
