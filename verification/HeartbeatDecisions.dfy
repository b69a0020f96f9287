/** From a heartbeat to the decision: what a computer that leaves an environment does to one that still uses it
    (src/remoteMonitor/main.ts, src/remoteMonitor/rules.ts). */
module HeartbeatDecisions {
  import opened Seqs
  import opened MonitorRules
  import opened MonitorDecision
  import opened MonitorRemovals
  import opened HeartbeatRecords
  import opened DecisionParts

  /** The records of the decision are those of the files. */
  ghost predicate ReadsFiles(i: Input, store: Store) { forall r :: r in i.records <==> IsStored(store, r) }

  /** A heartbeat of one computer for an environment, that is not too late, when no other record of it was written as late. */
  ghost predicate IsNewestHeartbeat(store: Store, hb: Heartbeat, entry: Entry, now: int) {
    && hb.environments == [entry] && !entry.clearOnly && !IsTooLate(store, hb.source, entry, now)
    && forall key :: key in store && key.environmentId == entry.id && key.source != hb.source ==> store[key].at < now
  }

  function After(store: Store, hb: Heartbeat, now: int): Store { WriteAll(store, Map(DeliveryOf(hb, now), hb.environments)) }

  /** The record that the heartbeat wrote is the first greatest one. */
  lemma ItIsNewest(store: Store, hb: Heartbeat, entry: Entry, now: int, i: Input) returns (n: nat)
    requires IsNewestHeartbeat(store, hb, entry, now) && now <= i.now && ReadsFiles(i, After(store, hb, now))
    ensures var rs := RecordsOf(i, entry.id);
            FirstGreatest(rs, Any(), n) && rs[n] == Seen(Record(hb.source, entry.id, now, entry.keepRunning, hb.limitSeconds, hb.release), now)
    ensures forall key :: key in store && key.environmentId == entry.id && key.source != hb.source ==>
              Seen(RecordAt(key, store[key]), store[key].at) in RecordsOf(i, entry.id)
  {
    var e, after := entry.id, After(store, hb, now);
    var mine := Record(hb.source, e, now, entry.keepRunning, hb.limitSeconds, hb.release);
    HeartbeatIsWritten(store, hb, hb.environments, now);
    assert entry in hb.environments;
    forall r: Record | r.environmentId == e
      ensures IsStored(after, r) <==> r == mine || (r.source != hb.source && IsStored(store, r))
    {
      assert Get(after, FileKey(hb.source, e)) == Some(Stored(now, entry.keepRunning, hb.limitSeconds, entry.order, hb.release));
      assert r.source != hb.source ==> Get(after, KeyOfRecord(r)) == Get(store, KeyOfRecord(r));
    }
    hide IsWritten, After, WriteAll, IsTooLate;
    var rs := RecordsOf(i, e);
    forall s | s in rs
      ensures s.written.environmentId == e && (s == Seen(mine, now) || s.at < now)
    {
      SeenIs(i, s);
    }
    forall r | IsStored(after, r) && r.environmentId == e
      ensures Seen(r, r.at) in rs
    {
      RecordIsSeen(i, r);
    }
    forall key | key in store && key.environmentId == e && key.source != hb.source
      ensures Seen(RecordAt(key, store[key]), store[key].at) in rs
    {
      assert IsStored(store, RecordAt(key, store[key]));
    }
    FilterAll(Any(), rs);
    n := NewestOfFilter(rs, Any());
    assert Seen(mine, now) in rs;
    var k :| 0 <= k < |rs| && rs[k] == Seen(mine, now);
  }

  /** A release of one computer stops nothing that another one still uses: of an environment with a record of another computer that is no
      release and was written at most its limit ago, no tick on the files behind it stops a container. */
  lemma AReleaseSparesOthers(store: Store, hb: Heartbeat, entry: Entry, now: int, i: Input, other: FileKey)
    requires IsNewestHeartbeat(store, hb, entry, now) && hb.release && now <= i.now && ReadsFiles(i, After(store, hb, now))
    requires other in store && other.environmentId == entry.id && other.source != hb.source
    requires !store[other].release && i.now - store[other].at <= store[other].limitSeconds * 1000
    ensures !Stopped(i, entry.id)
  {
    var rs := RecordsOf(i, entry.id);
    var n := ItIsNewest(store, hb, entry, now, i);
    StoppedExactlyWhen(i, entry.id);
    DecisiveDecides(i.now, rs);
    hide RecordsOf, Stopped, Decide, IsNewestHeartbeat, After, ReadsFiles, Decisive;
    AReleaseYields(i.now, rs, n);
  }

  /** Any other newest heartbeat decides alone: it keeps, or it stops after its own limit. */
  lemma AnotherHeartbeatDecides(store: Store, hb: Heartbeat, entry: Entry, now: int, i: Input)
    requires IsNewestHeartbeat(store, hb, entry, now) && !hb.release && now <= i.now && ReadsFiles(i, After(store, hb, now))
    ensures Stopped(i, entry.id) <==>
              HasRunning(i, entry.id) && !entry.keepRunning && !Decide(i).grace && i.now - now > hb.limitSeconds * 1000
    ensures entry.id in Decide(i).kept <==> HasRunning(i, entry.id) && entry.keepRunning
  {
    var rs := RecordsOf(i, entry.id);
    var n := ItIsNewest(store, hb, entry, now, i);
    StoppedExactlyWhen(i, entry.id);
    DecisiveDecides(i.now, rs);
    hide RecordsOf, Stopped, Decide, IsNewestHeartbeat, After, ReadsFiles, Decisive, HasRunning;
    forall d | Decides(i.now, rs, d)
      ensures d == n
    {
      var n' :| FirstGreatest(rs, Any(), n') &&
        if rs[n'].written.release && SomeLiveOther(i.now, rs, rs[n']) then FirstGreatest(rs, IsLive(i.now, rs[n'].written.source), d) else d == n';
      FirstGreatestUnique(rs, Any(), n, n');
    }
    assert Decides(i.now, rs, n);
  }
}
