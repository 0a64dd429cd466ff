/** The publisher's record of every alert it has built, by sequence number (bsv-regtest/alerts/log.go). */
module AlertLog {
  import opened Basics

  type Sequence = s: int | 0 <= s < 0x1_0000_0000 witness 0
  type Bytes = seq<bv8>

  datatype Alert = Alert(sequence: Sequence, wire: Bytes, hash: string)

  datatype Entry = Entry(sequence: Sequence, hash: string, wire: Bytes, note: string)

  type Entries = map<Sequence, Entry>

  ghost predicate Indexed(entries: Entries) {
    forall s | s in entries :: entries[s].sequence == s
  }

  // A refusal names the alert already there. A stored entry stays stored when saving it fails.
  datatype Appended = Refused(hash: string) | Stored(entry: Entry, saved: bool)

  function EntryOf(a: Alert, note: string): Entry {
    Entry(a.sequence, a.hash, a.wire, note)
  }

  predicate Conflicts(entries: Entries, a: Alert) {
    a.sequence in entries && entries[a.sequence].hash != a.hash
  }

  function AppendTo(entries: Entries, a: Alert, note: string): Entries {
    if Conflicts(entries, a) then entries else entries[a.sequence := EntryOf(a, note)]
  }

  // No append changes the hash stored at a sequence number.
  lemma {:induction false} HashKept(entries: Entries, a: Alert, note: string, s: Sequence)
    requires Indexed(entries) && s in entries
    ensures var after := AppendTo(entries, a, note);
            Indexed(after) && s in after && after[s].hash == entries[s].hash
  {
  }

  // Only hashes are compared. An append leaves the bytes at a number as they are exactly when it is for
  // another number, is refused for its hash, or brings the same bytes;
  lemma {:induction false} WireStaysIff(entries: Entries, a: Alert, note: string, s: Sequence)
    requires s in entries
    ensures var after := AppendTo(entries, a, note);
            && s in after
            && (after[s].wire == entries[s].wire
                <==> a.sequence != s || a.hash != entries[s].hash || a.wire == entries[s].wire)
  {
  }

  // so another alert with the same hash and other bytes replaces them.
  lemma {:induction false} WireMayChange(a: Alert, b: Alert)
    requires a.sequence == b.sequence && a.hash == b.hash && a.wire != b.wire
    ensures var once := AppendTo(map[], a, "");
            AppendTo(once, b, "")[a.sequence].wire != once[a.sequence].wire
  {
  }

  ghost predicate Listed(list: seq<Entry>, entries: Entries) {
    && (forall i, j | 0 <= i < j < |list| :: list[i].sequence < list[j].sequence)
    && (forall i | 0 <= i < |list| :: list[i].sequence in entries && list[i] == entries[list[i].sequence])
    && forall s | s in entries :: entries[s] in list
  }

  // The place of an entry in a list ordered by sequence.
  function Inserted(list: seq<Entry>, e: Entry): seq<Entry> {
    if list == [] || list[|list| - 1].sequence < e.sequence then list + [e]
    else Inserted(list[..|list| - 1], e) + [list[|list| - 1]]
  }

  ghost predicate Ascending(list: seq<Entry>) {
    forall i, j | 0 <= i < j < |list| :: list[i].sequence < list[j].sequence
  }

  lemma {:induction false} InsertedAscends(list: seq<Entry>, e: Entry)
    requires Ascending(list) && forall x | x in list :: x.sequence != e.sequence
    ensures Ascending(Inserted(list, e))
    ensures forall x :: x in Inserted(list, e) <==> x in list || x == e
  {
    if list != [] && list[|list| - 1].sequence >= e.sequence {
      var n := |list| - 1;
      InsertedAscends(list[..n], e);
      assert list == list[..n] + [list[n]];
      var ahead := Inserted(list[..n], e);
      forall i | 0 <= i < |ahead| ensures ahead[i].sequence < list[n].sequence {
        assert ahead[i] in ahead;
      }
    }
  }

  class Log {
    var entries: Entries

    constructor ()
      ensures entries == map[]
    {
      entries := map[];
    }

    method Append(a: Alert, note: string, saves: bool) returns (r: Appended)
      requires Indexed(entries)
      modifies this
      ensures Indexed(entries)
      ensures entries == AppendTo(old(entries), a, note)
      ensures if Conflicts(old(entries), a) then r == Refused(old(entries)[a.sequence].hash)
              else r == Stored(Entry(a.sequence, a.hash, a.wire, note), saves)
      ensures r.Stored? ==> entries == old(entries)[a.sequence := r.entry]
      ensures r.Refused? <==> a.sequence in old(entries) && old(entries)[a.sequence].hash != a.hash
    {
      if a.sequence in entries && entries[a.sequence].hash != a.hash {
        return Refused(entries[a.sequence].hash);
      }
      var e := EntryOf(a, note);
      entries := entries[a.sequence := e];
      return Stored(e, saves);
    }

    method Wire(s: Sequence) returns (wire: Bytes, ok: bool)
      ensures ok <==> s in entries
      ensures wire == if ok then entries[s].wire else []
    {
      if s !in entries {
        return [], false;
      }
      return entries[s].wire, true;
    }

    method Latest() returns (max: Sequence)
      ensures forall s | s in entries :: s <= max
      ensures max != 0 ==> max in entries
    {
      max := 0;
      var left := entries.Keys;
      while left != {}
        invariant left <= entries.Keys
        invariant forall s | s in entries && s !in left :: s <= max
        invariant max != 0 ==> max in entries
        decreases |left|
      {
        var s :| s in left;
        if s > max {
          max := s;
        }
        left := left - {s};
      }
    }

    method List() returns (out: seq<Entry>)
      requires Indexed(entries)
      ensures Listed(out, entries)
    {
      out := [];
      var left := entries.Keys;
      while left != {}
        invariant left <= entries.Keys
        invariant Ascending(out)
        invariant forall x | x in out :: x.sequence in entries && x.sequence !in left && x == entries[x.sequence]
        invariant forall s | s in entries && s !in left :: entries[s] in out
        decreases |left|
      {
        var s :| s in left;
        InsertedAscends(out, entries[s]);
        out := Inserted(out, entries[s]);
        left := left - {s};
      }
    }
  }
}
