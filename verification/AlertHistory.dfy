/** What any number of appends leaves of the alert log (bsv-regtest/alerts/log.go, Append). */
module AlertHistory {
  import opened AlertLog

  function AppendAll(entries: Entries, alerts: seq<Alert>, note: string): Entries {
    if alerts == [] then entries
    else AppendTo(AppendAll(entries, alerts[..|alerts| - 1], note), alerts[|alerts| - 1], note)
  }

  // The hash at a sequence number is written once: whatever is appended afterwards, it stays, and a
  // number is taken by the first alert appended with it.
  lemma {:induction false} HashWrittenOnce(entries: Entries, alerts: seq<Alert>, note: string, s: Sequence)
    requires Indexed(entries)
    ensures var after := AppendAll(entries, alerts, note);
            && Indexed(after)
            && (s in entries ==> s in after && after[s].hash == entries[s].hash)
            && (s !in entries ==>
                  (s in after <==> exists i | 0 <= i < |alerts| :: FirstWith(alerts, i, s))
                  && forall i | 0 <= i < |alerts| && FirstWith(alerts, i, s) :: s in after && after[s].hash == alerts[i].hash)
  {
    if alerts != [] {
      var init, last := alerts[..|alerts| - 1], alerts[|alerts| - 1];
      HashWrittenOnce(entries, init, note, s);
      assert forall i | 0 <= i < |init| :: FirstWith(init, i, s) <==> FirstWith(alerts, i, s);
      if last.sequence == s && s !in AppendAll(entries, init, note) {
        NoneWith(init, s);
        assert FirstWith(alerts, |init|, s);
      }
    }
  }

  ghost predicate FirstWith(alerts: seq<Alert>, i: int, s: Sequence) {
    0 <= i < |alerts| && alerts[i].sequence == s && forall j | 0 <= j < i :: alerts[j].sequence != s
  }

  lemma {:induction false} NoneWith(alerts: seq<Alert>, s: Sequence)
    requires forall i | 0 <= i < |alerts| :: !FirstWith(alerts, i, s)
    ensures forall i | 0 <= i < |alerts| :: alerts[i].sequence != s
  {
    if alerts != [] {
      var init := alerts[..|alerts| - 1];
      assert forall i | 0 <= i < |init| :: FirstWith(init, i, s) <==> FirstWith(alerts, i, s);
      NoneWith(init, s);
      assert forall i | 0 <= i < |init| :: alerts[i] == init[i];
      assert !FirstWith(alerts, |init|, s);
    }
  }

  // The last alert with a number and a hash.
  ghost predicate LastWith(alerts: seq<Alert>, i: int, s: Sequence, hash: string) {
    && 0 <= i < |alerts| && alerts[i].sequence == s && alerts[i].hash == hash
    && forall j | i < j < |alerts| :: alerts[j].sequence != s || alerts[j].hash != hash
  }

  // The bytes at a number are those of the last alert appended with that number and the hash it holds; if
  // there was none, they are what they were.
  lemma {:induction false} WireIsLast(entries: Entries, alerts: seq<Alert>, note: string, s: Sequence)
    requires s in AppendAll(entries, alerts, note)
    ensures var e := AppendAll(entries, alerts, note)[s];
            && (forall i | LastWith(alerts, i, s, e.hash) :: e.wire == alerts[i].wire)
            && ((forall i :: !LastWith(alerts, i, s, e.hash)) ==> s in entries && e == entries[s])
  {
    if alerts != [] {
      var init, last := alerts[..|alerts| - 1], alerts[|alerts| - 1];
      var before := AppendAll(entries, init, note);
      if s in before {
        WireIsLast(entries, init, note, s);
        LastWithMore(init, last, alerts, s, before[s].hash);
      }
      if last.sequence == s && !Conflicts(before, last) {
        assert LastWith(alerts, |init|, s, last.hash);
      }
    }
  }

  // One more alert in the list.
  lemma {:induction false} LastWithMore(init: seq<Alert>, last: Alert, alerts: seq<Alert>, s: Sequence, hash: string)
    requires alerts == init + [last]
    ensures last.sequence == s && last.hash == hash ==> forall i :: LastWith(alerts, i, s, hash) <==> i == |init|
    ensures last.sequence != s || last.hash != hash ==>
      forall i :: LastWith(alerts, i, s, hash) <==> LastWith(init, i, s, hash)
  {
    assert alerts[|init|] == last;
    assert forall i | 0 <= i < |init| :: alerts[i] == init[i];
    if last.sequence == s && last.hash == hash {
      assert LastWith(alerts, |init|, s, hash);
    } else {
      forall i ensures LastWith(alerts, i, s, hash) <==> LastWith(init, i, s, hash) {
        if LastWith(init, i, s, hash) {
          forall j | i < j < |alerts| ensures alerts[j].sequence != s || alerts[j].hash != hash {
            if j < |init| { assert alerts[j] == init[j]; }
          }
        }
        if LastWith(alerts, i, s, hash) {
          forall j | i < j < |init| ensures init[j].sequence != s || init[j].hash != hash {
            assert alerts[j] == init[j];
          }
        }
      }
    }
  }
}
