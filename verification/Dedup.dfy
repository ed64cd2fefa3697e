/** The deduplication of events in note_event (netpulse/inventory.py): what its query finds, and what it is for. */
module Dedup {
  import opened Wrappers
  import opened EventTime

  datatype DedupKey = Given(text: string) | OfRunbook(runbook: string, host: string, hour: int)

  datatype Event = Event(at: real, host: nat, kind: string, severity: string, dedup: Option<DedupKey>)

  /** The window of the dedup query, in seconds. */
  function Window(hours: int): (w: real)
    ensures w >= 3600.0 && (w == 3600.0 || w == 3600.0 * hours as real) && w >= 3600.0 * hours as real
  {
    3600.0 * (if hours > 1 then hours else 1) as real
  }

  /** The dedup query: it compares the stored text of an event's time with the text of the cutoff. */
  predicate Duplicate(events: seq<Event>, key: DedupKey, now: real, hours: int)
  {
    exists i :: 0 <= i < |events| && events[i].dedup == Some(key)
                && Less(SqlText(now - Window(hours)), IsoText(events[i].at))
  }

  /** What the query is for: an event of the key in the last `hours` hours. */
  predicate Recent(events: seq<Event>, key: DedupKey, now: real, hours: int)
  {
    exists i :: 0 <= i < |events| && events[i].dedup == Some(key) && events[i].at > now - Window(hours)
  }

  /** An event of the key on the day of the cutoff, at or before it. */
  predicate OnCutoffDay(events: seq<Event>, key: DedupKey, now: real, hours: int)
  {
    exists i :: 0 <= i < |events| && events[i].dedup == Some(key) && events[i].at <= now - Window(hours)
                && DayOf(events[i].at) == DayOf(now - Window(hours))
  }

  /** Whether every time involved can be written with four digits of the year. */
  predicate Writable(events: seq<Event>, now: real, hours: int)
  {
    InRange(now - Window(hours)) && forall i :: 0 <= i < |events| ==> InRange(events[i].at)
  }

  lemma Later(a: real, b: real)
    requires a <= b
    ensures DayOf(a) <= DayOf(b)
  {
    assert a / 86400.0 <= b / 86400.0;
  }

  /** The query finds what it is for, and the events of the cutoff's day that are already too old. */
  lemma DuplicateMeans(events: seq<Event>, key: DedupKey, now: real, hours: int)
    requires Writable(events, now, hours)
    ensures Duplicate(events, key, now, hours)
            <==> Recent(events, key, now, hours) || OnCutoffDay(events, key, now, hours)
  {
    hide SqlText, IsoText, Less, DayOf, Window, InRange;
    var cutoff := now - Window(hours);
    forall i | 0 <= i < |events|
      ensures Less(SqlText(cutoff), IsoText(events[i].at))
         <==> events[i].at > cutoff || DayOf(events[i].at) == DayOf(cutoff)
    {
      TextsCompareDays(cutoff, events[i].at);
      if events[i].at > cutoff { Later(cutoff, events[i].at); } else { Later(events[i].at, cutoff); }
    }
  }

  /**
   The query agrees with the window it is for exactly when an event of the key lies in the window, or
   none lies on the cutoff's day at or before the cutoff.
   */
  lemma DedupIff(events: seq<Event>, key: DedupKey, now: real, hours: int)
    requires Writable(events, now, hours)
    ensures (Duplicate(events, key, now, hours) <==> Recent(events, key, now, hours))
       <==> Recent(events, key, now, hours) || !OnCutoffDay(events, key, now, hours)
  {
    hide Duplicate, Recent, OnCutoffDay;
    DuplicateMeans(events, key, now, hours);
  }

  /** At eight in the evening, with a window of twelve hours, an event of one in the morning is still a duplicate. */
  lemma OldEventIsDuplicate(key: DedupKey)
    ensures var events := [Event(3600.0, 0, "disk", "HIGH", Some(key))];
            Duplicate(events, key, 72000.0, 12) && !Recent(events, key, 72000.0, 12)
  {
    var events := [Event(3600.0, 0, "disk", "HIGH", Some(key))];
    assert Window(12) == 43200.0;
    var cutoff := 72000.0 - Window(12);
    assert cutoff == 28800.0;
    assert DayOf(3600.0) == 0 && DayOf(cutoff) == 0;
    assert events[0].at <= cutoff;
    assert OnCutoffDay(events, key, 72000.0, 12);
    DuplicateMeans(events, key, 72000.0, 12);
  }
}
