/** The entry pool: reusable `LogEntry` values, reset on the way out. */
module EntryPool {
  import opened Wrappers
  import opened Entries

  /** What the pool's `New` hook builds: a zero entry with an empty, non-nil
      field map. */
  function NewEntry(): (e: LogEntry)
    ensures IsReset(e) && e.fields == Some(map[])
    ensures e.timestamp == 0 && e.raw == NilSlice
  {
    ZeroEntry.(fields := Some(map[]))
  }

  /** An entry as `Get` hands it out: no field keys, empty strings, no raw
      bytes, unknown level and sequence number zero. */
  predicate IsReset(e: LogEntry)
  {
    && (e.fields == None || e.fields == Some(map[]))
    && e.message == "" && e.stream == "" && e.source == ""
    && e.raw.length == 0
    && e.level == Unknown
    && e.seqNo == 0
  }

  /** The reset `Get` applies. Only the listed fields are cleared: the
      timestamp and the raw buffer's backing array survive, and a nil field
      map stays nil. */
  function Cleared(e: LogEntry): (r: LogEntry)
    ensures IsReset(r)
    ensures r.timestamp == e.timestamp && r.raw.backing == e.raw.backing
    ensures r.fields.None? <==> e.fields.None?
  {
    e.(fields := if e.fields.None? then None else Some(map[]),
       message := "", raw := e.raw.(length := 0), stream := "", source := "",
       level := Unknown, seqNo := 0)
  }

  /** Resetting is idempotent; more precisely, an entry already in reset form
      is left exactly as it is. */
  lemma ResetIdempotent(e: LogEntry)
    ensures IsReset(e) ==> Cleared(e) == e
    ensures Cleared(Cleared(e)) == Cleared(e)
  {
  }

  /** Two entries that differ only in what the reset clears come out equal. */
  lemma ClearedForgets(e1: LogEntry, e2: LogEntry)
    requires e1.timestamp == e2.timestamp && e1.raw.backing == e2.raw.backing
    requires e1.fields.None? == e2.fields.None?
    ensures Cleared(e1) == Cleared(e2)
  {
  }

  /** The key-deleting loop of `Get`: every key of the map is removed. */
  method DeleteAll(m: map<string, string>) returns (r: map<string, string>)
    ensures r == map[]
  {
    r := m;
    var keys := m.Keys;
    while keys != {}
      invariant r.Keys == keys
      decreases keys
    {
      var k :| k in keys;
      r := r - {k};
      keys := keys - {k};
    }
  }

  /** The whole reset of `Get`, field by field. */
  method Reset(e: LogEntry) returns (r: LogEntry)
    ensures r == Cleared(e)
  {
    r := e;
    match e.fields {
      case Some(m) =>
        var emptied := DeleteAll(m);
        r := r.(fields := Some(emptied));
      case None =>
    }
    r := r.(message := "");
    r := r.(raw := r.raw.(length := 0));
    r := r.(stream := "");
    r := r.(source := "");
    r := r.(level := Unknown);
    r := r.(seqNo := 0);
  }

  /** The pool as a bag of spare entries; it hands back the most recently
      returned one. */
  class Pool {
    var free: seq<LogEntry>

    constructor ()
      ensures free == []
    {
      free := [];
    }

    /** `Get`: take a spare entry, or build a new one, and reset it. */
    method Get() returns (e: LogEntry)
      modifies this
      ensures IsReset(e)
      ensures old(free) == [] ==> free == [] && e == NewEntry()
      ensures old(free) != [] ==> free == old(free)[..|old(free)| - 1] && e == Cleared(old(free)[|old(free)| - 1])
    {
      var spare;
      if free == [] {
        spare := NewEntry();
      } else {
        spare := free[|free| - 1];
        free := free[..|free| - 1];
      }
      e := Reset(spare);
    }

    /** `Put`: give an entry back for reuse. */
    method Put(e: LogEntry)
      modifies this
      ensures free == old(free) + [e]
    {
      free := free + [e];
    }
  }
}
