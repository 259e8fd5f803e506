/** The in-flight table on the heap: cancel flags and abort handles shared with the running tasks. */
module Inflight {
  import opened Bytes

  /** An `Arc<AtomicBool>`, or the cancelled bit behind an `AbortHandle`. */
  class Flag {
    var raised: bool

    constructor ()
      ensures !raised
    {
      raised := false;
    }
  }

  datatype Entry = Entry(cancelled: Flag, abort: Flag, epAddr: byte)

  ghost function EntryFlags(entries: map<u32, Entry>): set<Flag> {
    (set q | q in entries :: entries[q].cancelled) + (set q | q in entries :: entries[q].abort)
  }

  class Table {
    var entries: map<u32, Entry>

    ghost function Flags(): set<Flag>
      reads this
    {
      EntryFlags(entries)
    }

    /** The two flags of one entry, if it is there. */
    ghost function FlagsOf(seqnum: u32): set<Flag>
      reads this
    {
      if seqnum in entries then {entries[seqnum].cancelled, entries[seqnum].abort} else {}
    }

    constructor ()
      ensures entries == map[]
    {
      entries := map[];
    }

    method Insert(seqnum: u32, e: Entry)
      modifies this
      ensures entries == old(entries)[seqnum := e]
    {
      entries := entries[seqnum := e];
    }

    /** The locked part of `handle_cmd_unlink`; `cancel` is the endpoint address to cancel, if any. */
    method Unlink(seqnum: u32) returns (cancel: Option<byte>)
      modifies this, FlagsOf(seqnum)
      ensures entries == old(entries) - {seqnum}
      ensures cancel ==
              if seqnum in old(entries) && old(entries)[seqnum].epAddr != 0
              then Some(old(entries)[seqnum].epAddr) else None
      ensures forall f | f in old(FlagsOf(seqnum)) :: f.raised
    {
      cancel := None;
      if seqnum in entries {
        var info := entries[seqnum];
        entries := entries - {seqnum};
        info.cancelled.raised := true;
        if info.epAddr != 0 {
          cancel := Some(info.epAddr);
        }
        info.abort.raised := true;
      }
    }

    /** `drain_inflight`: empty the table first, then flag and abort every drained entry. */
    method Drain()
      modifies this, Flags()
      ensures entries == map[]
      ensures forall f | f in old(Flags()) :: f.raised
    {
      var taken := entries;
      entries := map[];
      var left := taken.Keys;
      while left != {}
        invariant left <= taken.Keys && entries == map[]
        invariant forall q | q in taken && q !in left :: taken[q].cancelled.raised && taken[q].abort.raised
        decreases left
      {
        var q :| q in left;
        var info := taken[q];
        assert info.cancelled in old(Flags()) && info.abort in old(Flags());
        left := left - {q};
        info.cancelled.raised := true;
        info.abort.raised := true;
      }
    }
  }
}
