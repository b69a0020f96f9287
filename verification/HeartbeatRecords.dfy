/** The heartbeat records of the volume (src/remoteMonitor/main.ts): how heartbeats of several computers replace them. */
module HeartbeatRecords {
  import opened Seqs
  import opened MonitorRules

  const SEQ_ORDER_WINDOW_MS: int := 60_000

  /** The parts of a record's file name. */
  datatype FileKey = FileKey(source: string, environmentId: string)

  datatype Stored = Stored(at: int, keepRunning: bool, limitSeconds: int, order: nat, release: bool)

  type Store = map<FileKey, Stored>

  datatype Entry = Entry(id: string, keepRunning: bool, order: nat, clearOnly: bool)

  datatype Heartbeat = Heartbeat(source: string, limitSeconds: int, environments: seq<Entry>, release: bool)

  /** One entry of a heartbeat, with the time at which the host received it. */
  datatype Delivery = Delivery(key: FileKey, now: int, limitSeconds: int, release: bool, entry: Entry)

  function Get(store: Store, key: FileKey): Option<Stored> { if key in store then Some(store[key]) else None }

  function RecordFrom(d: Delivery): Stored {
    Stored(d.now, d.entry.keepRunning, d.limitSeconds, d.entry.order, d.release)
  }

  predicate IsIgnored(existing: Option<Stored>, d: Delivery) {
    || (existing.Some? && existing.value.order > d.entry.order && Abs(d.now - existing.value.at) <= SEQ_ORDER_WINDOW_MS)
    || (d.entry.clearOnly && !(existing.Some? && existing.value.keepRunning))
  }

  function Deliver(existing: Option<Stored>, d: Delivery): Option<Stored> {
    if IsIgnored(existing, d) then existing else Some(RecordFrom(d))
  }

  function Write(store: Store, d: Delivery): Store {
    if IsIgnored(Get(store, d.key), d) then store else store[d.key := RecordFrom(d)]
  }

  function WriteAll(store: Store, ds: seq<Delivery>): Store {
    if ds == [] then store else Write(WriteAll(store, ds[..|ds| - 1]), ds[|ds| - 1])
  }

  function Ignored(store: Store, ds: seq<Delivery>): seq<string> {
    if ds == [] then [] else
    var init, last := ds[..|ds| - 1], ds[|ds| - 1];
    Ignored(store, init) + if IsIgnored(Get(WriteAll(store, init), last.key), last) then [last.entry.id] else []
  }

  function DeliveryOf(hb: Heartbeat, now: int): Entry -> Delivery {
    (entry: Entry) => Delivery(FileKey(hb.source, entry.id), now, hb.limitSeconds, hb.release, entry)
  }

  // ---- One entry, said of its fields ----

  /** The computer's stored record has a later choice and was written at most a minute away; or there is no keep to withdraw. */
  predicate IsTooLate(store: Store, source: string, entry: Entry, now: int) {
    var key := FileKey(source, entry.id);
    || (key in store && store[key].order > entry.order && -60_000 <= now - store[key].at <= 60_000)
    || (entry.clearOnly && (key !in store || !store[key].keepRunning))
  }

  function Late(store: Store, source: string, now: int): Entry -> bool { (entry: Entry) => IsTooLate(store, source, entry, now) }

  function IdOf(): Entry -> string { (entry: Entry) => entry.id }

  /** The environments of the entries that are too late, in their order. */
  function TooLate(store: Store, source: string, entries: seq<Entry>, now: int): seq<string> {
    Map(IdOf(), Filter(Late(store, source, now), entries))
  }

  /** Each environment is named once. */
  ghost predicate NamedOnce(entries: seq<Entry>) { forall j, k :: 0 <= j < k < |entries| ==> entries[j].id != entries[k].id }

  /** What entries of a heartbeat leave in the volume: of each one that is not too late a record with the time of its receipt and all
      that the heartbeat says, and nothing else is changed. */
  ghost predicate IsWritten(before: Store, hb: Heartbeat, entries: seq<Entry>, now: int, after: Store) {
    && (forall entry :: entry in entries ==>
          var key := FileKey(hb.source, entry.id);
          if IsTooLate(before, hb.source, entry, now) then Get(after, key) == Get(before, key)
          else Get(after, key) == Some(Stored(now, entry.keepRunning, hb.limitSeconds, entry.order, hb.release)))
    && forall key: FileKey :: (forall entry :: entry in entries ==> key != FileKey(hb.source, entry.id)) ==>
         Get(after, key) == Get(before, key)
  }

  lemma {:induction false} HeartbeatIsWritten(store: Store, hb: Heartbeat, entries: seq<Entry>, now: int)
    requires NamedOnce(entries)
    ensures var ds := Map(DeliveryOf(hb, now), entries);
            IsWritten(store, hb, entries, now, WriteAll(store, ds)) && Ignored(store, ds) == TooLate(store, hb.source, entries, now)
  {
    if entries != [] {
      var init, entry := entries[..|entries| - 1], entries[|entries| - 1];
      assert entries == init + [entry];
      assert forall other :: other in init ==> other.id != entry.id;
      HeartbeatIsWritten(store, hb, init, now);
      var d := DeliveryOf(hb, now)(entry);
      MapSnoc(DeliveryOf(hb, now), init, entry);
      var ds := Map(DeliveryOf(hb, now), init);
      assert (ds + [d])[..|ds|] == ds;
      var before := WriteAll(store, ds);
      hide Map, IsWritten, IsTooLate, IsIgnored, Get, NamedOnce, TooLate;
      UnnamedStays(store, hb, init, now, before, FileKey(hb.source, entry.id));
      OneEntry(store, before, hb, entry, now);
      hide Write, DeliveryOf;
      WrittenMore(store, hb, now, init, entry, before, Write(before, d));
      TooLateMore(store, hb.source, init, entry, now);
    }
  }

  lemma UnnamedStays(store: Store, hb: Heartbeat, entries: seq<Entry>, now: int, after: Store, key: FileKey)
    requires IsWritten(store, hb, entries, now, after) && forall entry :: entry in entries ==> entry.id != key.environmentId
    ensures Get(after, key) == Get(store, key)
  {
  }

  /** One more entry, of an environment that no entry before it names. */
  lemma OneEntry(store: Store, before: Store, hb: Heartbeat, entry: Entry, now: int)
    requires Get(before, FileKey(hb.source, entry.id)) == Get(store, FileKey(hb.source, entry.id))
    ensures var d, key := DeliveryOf(hb, now)(entry), FileKey(hb.source, entry.id);
            && d.key == key && d.entry.id == entry.id && (IsIgnored(Get(before, key), d) <==> IsTooLate(store, hb.source, entry, now))
            && Get(Write(before, d), key) ==
                 (if IsTooLate(store, hb.source, entry, now) then Get(store, key)
                  else Some(Stored(now, entry.keepRunning, hb.limitSeconds, entry.order, hb.release)))
            && forall other :: other != key ==> Get(Write(before, d), other) == Get(before, other)
  {
  }

  lemma WrittenMore(store: Store, hb: Heartbeat, now: int, init: seq<Entry>, entry: Entry, before: Store, after: Store)
    requires IsWritten(store, hb, init, now, before) && forall other :: other in init ==> other.id != entry.id
    requires var key := FileKey(hb.source, entry.id);
             && Get(after, key) == (if IsTooLate(store, hb.source, entry, now) then Get(store, key)
                                    else Some(Stored(now, entry.keepRunning, hb.limitSeconds, entry.order, hb.release)))
             && forall other :: other != key ==> Get(after, other) == Get(before, other)
    ensures IsWritten(store, hb, init + [entry], now, after)
  {
    hide Get, IsTooLate;
    assert entry in init + [entry];
  }

  lemma TooLateMore(store: Store, source: string, init: seq<Entry>, entry: Entry, now: int)
    ensures TooLate(store, source, init + [entry], now) ==
            TooLate(store, source, init, now) + if IsTooLate(store, source, entry, now) then [entry.id] else []
  {
    FilterSnoc(Late(store, source, now), init, entry);
    MapSnoc(IdOf(), Filter(Late(store, source, now), init), entry);
  }

  class Volume {
    var records: Store

    constructor ()
      ensures records == map[]
    {
      records := map[];
    }

    /** Under the lock of the records: each entry replaces the record of its source, or is ignored. */
    method WriteHeartbeat(hb: Heartbeat, now: int) returns (ignored: seq<string>)
      modifies this
      ensures records == WriteAll(old(records), Map(DeliveryOf(hb, now), hb.environments))
      ensures ignored == Ignored(old(records), Map(DeliveryOf(hb, now), hb.environments))
      ensures NamedOnce(hb.environments) ==>
                && IsWritten(old(records), hb, hb.environments, now, records)
                && ignored == TooLate(old(records), hb.source, hb.environments, now)
    {
      ignored := [];
      ghost var ds := Map(DeliveryOf(hb, now), hb.environments);
      for k := 0 to |hb.environments|
        invariant records == WriteAll(old(records), ds[..k])
        invariant ignored == Ignored(old(records), ds[..k])
      {
        var entry := hb.environments[k];
        assert ds[..k + 1][..k] == ds[..k];
        var key := FileKey(hb.source, entry.id);
        var existing := Get(records, key);
        var olderEntry := existing.Some? && existing.value.order > entry.order && Abs(now - existing.value.at) <= SEQ_ORDER_WINDOW_MS;
        var nothingToClear := entry.clearOnly && !(existing.Some? && existing.value.keepRunning);
        if olderEntry || nothingToClear {
          ignored := ignored + [entry.id];
          continue;
        }
        records := records[key := Stored(now, entry.keepRunning, hb.limitSeconds, entry.order, hb.release)];
      }
      assert ds[..|ds|] == ds;
      if NamedOnce(hb.environments) {
        HeartbeatIsWritten(old(records), hb, hb.environments, now);
      }
    }

    /** `forget <source> <environment id> [<at>]`: with an `at`, only while the file holds a record with it. */
    method RemoveRecord(key: FileKey, at: Option<int>) returns (removed: bool)
      modifies this
      ensures removed == (at.None? || (key in old(records) && old(records)[key].at == at.value))
      ensures records == if removed then old(records) - {key} else old(records)
    {
      if at.Some? && !(key in records && records[key].at == at.value) {
        return false;
      }
      records := records - {key};
      return true;
    }
  }

  // ---- The order of the heartbeats of one computer ----

  function To(key: FileKey): Delivery -> bool { (d: Delivery) => d.key == key }

  function DeliverAll(existing: Option<Stored>, ds: seq<Delivery>): Option<Stored> {
    if ds == [] then existing else Deliver(DeliverAll(existing, ds[..|ds| - 1]), ds[|ds| - 1])
  }

  /** Each record depends on the deliveries to its own file alone. */
  lemma {:induction false} FilesAreIndependent(store: Store, ds: seq<Delivery>, key: FileKey)
    ensures Get(WriteAll(store, ds), key) == DeliverAll(Get(store, key), Filter(To(key), ds))
  {
    if ds != [] {
      var init, last := ds[..|ds| - 1], ds[|ds| - 1];
      FilesAreIndependent(store, init, key);
      if last.key == key {
        var mine := Filter(To(key), init);
        assert (mine + [last])[..|mine|] == mine;
      }
    }
  }

  ghost predicate DistinctOrders(ds: seq<Delivery>) {
    forall j, k :: 0 <= j < k < |ds| ==> ds[j].entry.order != ds[k].entry.order
  }

  ghost predicate WithinWindow(ds: seq<Delivery>) {
    forall j, k :: 0 <= j < |ds| && 0 <= k < |ds| ==> Abs(ds[j].now - ds[k].now) <= SEQ_ORDER_WINDOW_MS
  }

  /** Choices of one computer that arrive within the order window, none of them clear-only and all newer than the stored
      record, end in the record of the highest order, in whatever order they arrive. */
  lemma {:induction false} HighestOrderWins(existing: Option<Stored>, ds: seq<Delivery>) returns (k: nat)
    requires ds != [] && DistinctOrders(ds) && WithinWindow(ds)
    requires forall d :: d in ds ==> !d.entry.clearOnly && (existing.Some? ==> existing.value.order < d.entry.order)
    ensures k < |ds| && DeliverAll(existing, ds) == Some(RecordFrom(ds[k]))
    ensures forall j :: 0 <= j < |ds| ==> ds[j].entry.order <= ds[k].entry.order
  {
    var init, last := ds[..|ds| - 1], ds[|ds| - 1];
    assert last in ds;
    EarlierChoices(ds);
    hide Deliver, RecordFrom, WithinWindow, DistinctOrders;
    if init == [] {
      k := 0;
      LaterChoice(existing, last);
    } else {
      k := HighestOrderWins(existing, init);
      var chosen := init[k];
      assert chosen == ds[k];
      NextChoice(chosen, last);
      if last.entry.order > chosen.entry.order {
        k := |ds| - 1;
      }
    }
  }

  /** All but the last of the choices, and what they are to the last one. */
  lemma EarlierChoices(ds: seq<Delivery>)
    requires ds != [] && DistinctOrders(ds) && WithinWindow(ds)
    ensures var init, last := ds[..|ds| - 1], ds[|ds| - 1];
            && DistinctOrders(init) && WithinWindow(init)
            && (forall d :: d in init ==> d in ds)
            && forall k :: 0 <= k < |init| ==>
                 Abs(last.now - init[k].now) <= SEQ_ORDER_WINDOW_MS && last.entry.order != init[k].entry.order
  {
  }

  lemma LaterChoice(existing: Option<Stored>, d: Delivery)
    requires !d.entry.clearOnly && (existing.Some? ==> existing.value.order < d.entry.order)
    ensures Deliver(existing, d) == Some(RecordFrom(d))
  {
  }

  lemma NextChoice(chosen: Delivery, last: Delivery)
    requires !last.entry.clearOnly && Abs(last.now - chosen.now) <= SEQ_ORDER_WINDOW_MS && last.entry.order != chosen.entry.order
    ensures Deliver(Some(RecordFrom(chosen)), last) == Some(RecordFrom(if last.entry.order > chosen.entry.order then last else chosen))
  {
  }

  /** The same for the volume: the file of the computer ends with its newest choice, whatever other computers and entries
      were written in between. */
  lemma NewestChoiceIsStored(store: Store, ds: seq<Delivery>, key: FileKey) returns (d: Delivery)
    requires Filter(To(key), ds) != [] && DistinctOrders(Filter(To(key), ds)) && WithinWindow(Filter(To(key), ds))
    requires forall d :: d in ds && d.key == key ==> !d.entry.clearOnly && (key in store ==> store[key].order < d.entry.order)
    ensures d in ds && d.key == key
    ensures key in WriteAll(store, ds)
    ensures WriteAll(store, ds)[key] == Stored(d.now, d.entry.keepRunning, d.limitSeconds, d.entry.order, d.release)
    ensures forall other :: other in ds && other.key == key ==> other.entry.order <= d.entry.order
  {
    var mine := Filter(To(key), ds);
    FilesAreIndependent(store, ds, key);
    var k := HighestOrderWins(Get(store, key), mine);
    d := mine[k];
    assert d in mine;
    forall other | other in ds && other.key == key
      ensures other.entry.order <= d.entry.order
    {
      assert other in mine;
    }
  }

  /** The window is exact: of two choices, the newer one delivered first stays exactly when the older one arrives at most
      the window away from it. */
  lemma OrderHoldsExactlyWithinTheWindow(existing: Option<Stored>, newer: Delivery, older: Delivery)
    requires newer.entry.order > older.entry.order && !newer.entry.clearOnly && !older.entry.clearOnly
    requires existing.Some? ==> existing.value.order < older.entry.order
    ensures DeliverAll(existing, [newer, older]) == Some(RecordFrom(newer)) <==> Abs(older.now - newer.now) <= SEQ_ORDER_WINDOW_MS
  {
    assert [newer, older][..1] == [newer];
    assert [newer][..0] == [];
    assert DeliverAll(existing, [newer]) == Some(RecordFrom(newer));
  }

  /** Clear-only entries never create a record and never change one that does not keep; one that keeps loses its keep at
      the first of them that the order lets through, and the rest change nothing. */
  lemma {:induction false} ClearOnlyWithdrawsAtMostAKeep(existing: Option<Stored>, ds: seq<Delivery>)
    requires forall d :: d in ds ==> d.entry.clearOnly && !d.entry.keepRunning
    ensures existing.None? || !existing.value.keepRunning ==> DeliverAll(existing, ds) == existing
    ensures existing.Some? ==>
              || DeliverAll(existing, ds) == existing
              || exists d :: d in ds && DeliverAll(existing, ds) == Some(RecordFrom(d))
  {
    if ds != [] {
      var init, last := ds[..|ds| - 1], ds[|ds| - 1];
      assert forall d :: d in init ==> d in ds;
      ClearOnlyWithdrawsAtMostAKeep(existing, init);
      assert last in ds;
    }
  }

  // ---- The records in the files ----

  function RecordAt(key: FileKey, stored: Stored): Record {
    Record(key.source, key.environmentId, stored.at, stored.keepRunning, stored.limitSeconds, stored.release)
  }

  function KeyOfRecord(r: Record): FileKey { FileKey(r.source, r.environmentId) }

  predicate IsStored(store: Store, r: Record) {
    KeyOfRecord(r) in store && RecordAt(KeyOfRecord(r), store[KeyOfRecord(r)]) == r
  }

  /** What `forget` with an `at` asks of the file. */
  predicate Holds(store: Store, r: Record) { KeyOfRecord(r) in store && store[KeyOfRecord(r)].at == r.at }
}
