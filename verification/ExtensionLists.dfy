/** The recorded extension lists: what an open records, and the union that the monitor keeps (src/core/vscodeExtensions.ts). */
module ExtensionLists {
  import opened ExtensionCache
  import opened ExtensionNames
  import opened Seqs
  import opened Sorting

  const MAX_LISTED_EXTENSIONS: nat := 100
  const MAX_WANTED_EXTENSIONS: nat := 200
  const RECORDED_LIST_MS: int := 14 * 24 * 60 * 60_000
  const RECORD_AHEAD_MS: int := 24 * 60 * 60_000

  /** The record of an open; its entries were checked when it was read. */
  datatype Record = Record(at: int, configuration: seq<Ref>, defaults: seq<Ref>)

  /** A checked entry: no ID holds an `@`. */
  predicate IsEntry(ref: Ref) { '@' !in ref.id }

  predicate IsChecked(record: Record) { forall ref :: ref in record.configuration + record.defaults ==> IsEntry(ref) }

  /** The text of an entry: `id` or `id@version`. */
  function Text(ref: Ref): string { if ref.pin.Some? then ref.id + "@" + ref.pin.value else ref.id }

  function Take<T>(s: seq<T>, n: nat): seq<T> { if |s| <= n then s else s[..n] }

  // ---- The list of an open ----

  predicate HasId(list: seq<Ref>, id: string) { exists k :: 0 <= k < |list| && list[k].id == id }

  /** Each ID once: its first entry. */
  function FirstEach(refs: seq<Ref>): (list: seq<Ref>)
    ensures forall ref :: ref in list ==> ref in refs
  {
    if refs == [] then []
    else
      var before, last := FirstEach(refs[..|refs| - 1]), refs[|refs| - 1];
      if HasId(before, last.id) then before else before + [last]
  }

  function Combined(record: Record): seq<Ref> { Take(FirstEach(record.configuration + record.defaults), MAX_LISTED_EXTENSIONS) }

  method CombinedExtensions(configuration: seq<Ref>, defaults: seq<Ref>) returns (list: seq<Ref>)
    ensures list == Take(FirstEach(configuration + defaults), MAX_LISTED_EXTENSIONS)
  {
    var refs := configuration + defaults;
    list := [];
    assert refs[..0] == [];
    for i := 0 to |refs|
      invariant list == FirstEach(refs[..i])
    {
      assert refs[..i + 1][..i] == refs[..i];
      if !HasId(list, refs[i].id) { list := list + [refs[i]]; }
    }
    assert refs[..|refs|] == refs;
    list := Take(list, MAX_LISTED_EXTENSIONS);
  }

  /** The list of an open names no ID twice, every ID that it was given (before the bound), and each by its first entry: an
      entry of the configuration comes before one of the defaults. */
  lemma {:induction false} FirstEachMeans(refs: seq<Ref>, k: nat)
    requires k < |refs|
    ensures forall i, j :: 0 <= i < j < |FirstEach(refs)| ==> FirstEach(refs)[i].id != FirstEach(refs)[j].id
    ensures HasId(FirstEach(refs), refs[k].id)
    ensures (forall j :: 0 <= j < k ==> refs[j].id != refs[k].id) ==> refs[k] in FirstEach(refs)
  {
    var init, last := refs[..|refs| - 1], refs[|refs| - 1];
    if init != [] { FirstEachMeans(init, if k < |init| then k else 0); }
    var before := FirstEach(init);
    assert forall i :: 0 <= i < |before| ==> before[i] in init;
    if !HasId(before, last.id) {
      var list := before + [last];
      assert list[|before|] == last;
      assert forall i :: 0 <= i < |before| ==> list[i] == before[i];
    } else if k == |init| {
      var i :| 0 <= i < |before| && before[i].id == last.id;
      assert before[i] in init;
      var j :| 0 <= j < |init| && init[j] == before[i];
      assert refs[j].id == refs[k].id;
    }
  }

  // ---- The union of the recorded lists ----

  predicate Counts(record: Record, now: int) { !(now - record.at >= RECORDED_LIST_MS || record.at - now > RECORD_AHEAD_MS) }

  /** All entries of the lists that count, one list behind the other. */
  function AllEntries(records: seq<Record>, now: int): seq<Ref> {
    if records == [] then []
    else
      var before, last := AllEntries(records[..|records| - 1], now), records[|records| - 1];
      if Counts(last, now) then before + Combined(last) else before
  }

  /** Their texts, each once, sorted. */
  function SortedTexts(entries: seq<Ref>): seq<string> { StableSort(TextBefore, Distinct(Map(Text, entries))) }

  function RefOf(entries: seq<Ref>, text: string): Ref
    requires text in Map(Text, entries)
  {
    if Text(entries[|entries| - 1]) == text then entries[|entries| - 1]
    else
      OtherText(entries, text);
      RefOf(entries[..|entries| - 1], text)
  }

  lemma OtherText(entries: seq<Ref>, text: string)
    requires entries != [] && text in Map(Text, entries) && Text(entries[|entries| - 1]) != text
    ensures text in Map(Text, entries[..|entries| - 1])
  {
    var k :| 0 <= k < |entries| && Map(Text, entries)[k] == text;
    assert Map(Text, entries[..|entries| - 1])[k] == text;
  }

  /** The first of the sorted entries. */
  function FirstTexts(entries: seq<Ref>): seq<Ref> {
    var texts := SortedTexts(entries);
    TextsAre(entries);
    seq(|Take(texts, MAX_WANTED_EXTENSIONS)|, k requires 0 <= k < |Take(texts, MAX_WANTED_EXTENSIONS)| => RefOf(entries, texts[k]))
  }

  /** The entries that the monitor keeps new, and whose files the cleanup keeps. */
  function Wanted(records: seq<Record>, now: int): seq<Ref> { FirstTexts(AllEntries(records, now)) }

  lemma TextsAre(entries: seq<Ref>)
    ensures forall text :: text in SortedTexts(entries) <==> text in Map(Text, entries)
    ensures |SortedTexts(entries)| == |Distinct(Map(Text, entries))|
    ensures forall k :: 0 <= k < |SortedTexts(entries)| ==> SortedTexts(entries)[k] in Map(Text, entries)
    ensures NoDuplicates(SortedTexts(entries))
  {
    var texts := Distinct(Map(Text, entries));
    SortMembers(TextBefore, texts);
    SortMultiset(TextBefore, texts);
    NoDuplicatesByMultiset(texts, SortedTexts(entries));
    assert forall k :: 0 <= k < |SortedTexts(entries)| ==> SortedTexts(entries)[k] in SortedTexts(entries);
  }

  method WantedExtensions(records: seq<Record>, now: int) returns (wanted: seq<Ref>)
    ensures wanted == Wanted(records, now)
  {
    var byText: map<string, Ref> := map[];
    var order: seq<string> := [];
    ghost var entries: seq<Ref> := [];
    assert IsIndex(byText, order, entries);
    hide IsIndex, FirstEach, SortedTexts;
    assert records[..0] == [];
    for i := 0 to |records|
      invariant entries == AllEntries(records[..i], now) && IsIndex(byText, order, entries)
    {
      assert records[..i + 1][..i] == records[..i];
      var record := records[i];
      if now - record.at >= RECORDED_LIST_MS || record.at - now > RECORD_AHEAD_MS { continue; }
      var list := CombinedExtensions(record.configuration, record.defaults);
      byText, order := AddList(byText, order, entries, list);
      entries := entries + list;
    }
    assert records[..|records|] == records;
    IndexMeans(byText, order, entries);
    wanted := FirstByText(byText, order, entries);
  }

  method AddList(byText0: map<string, Ref>, order0: seq<string>, ghost entries: seq<Ref>, list: seq<Ref>)
    returns (byText: map<string, Ref>, order: seq<string>)
    requires IsIndex(byText0, order0, entries)
    ensures IsIndex(byText, order, entries + list)
  {
    hide IsIndex, Text;
    byText, order := byText0, order0;
    assert entries + list[..0] == entries;
    for j := 0 to |list|
      invariant IsIndex(byText, order, entries + list[..j])
    {
      IndexStep(byText, order, entries + list[..j], list[j]);
      assert entries + list[..j + 1] == entries + list[..j] + [list[j]];
      var text := Text(list[j]);
      if text !in order { order := order + [text]; }
      byText := byText[text := list[j]];
    }
    assert list[..|list|] == list;
  }

  method FirstByText(byText: map<string, Ref>, order: seq<string>, ghost entries: seq<Ref>) returns (wanted: seq<Ref>)
    requires order == Distinct(Map(Text, entries))
    requires forall text :: text in Map(Text, entries) ==> text in byText && byText[text] == RefOf(entries, text)
    ensures wanted == FirstTexts(entries)
  {
    TextsAre(entries);
    var sorted := StableSort(TextBefore, order);
    var texts := Take(sorted, MAX_WANTED_EXTENSIONS);
    assert sorted == SortedTexts(entries);
    hide RefOf, SortedTexts, Distinct, Text, StableSort;
    assert forall k :: 0 <= k < |texts| ==> texts[k] == sorted[k] && texts[k] in byText;
    wanted := seq(|texts|, k requires 0 <= k < |texts| && texts[k] in byText => byText[texts[k]]);
  }

  /** The map of the loop and the order of its keys, after some entries. */
  ghost predicate IsIndex(byText: map<string, Ref>, order: seq<string>, entries: seq<Ref>) {
    && order == Distinct(Map(Text, entries))
    && (forall text :: text in byText <==> text in Map(Text, entries))
    && forall text :: text in byText ==> byText[text] == RefOf(entries, text)
  }

  lemma IndexMeans(byText: map<string, Ref>, order: seq<string>, entries: seq<Ref>)
    requires IsIndex(byText, order, entries)
    ensures order == Distinct(Map(Text, entries))
    ensures forall text :: text in Map(Text, entries) ==> text in byText && byText[text] == RefOf(entries, text)
  {
  }

  lemma IndexStep(byText: map<string, Ref>, order: seq<string>, entries: seq<Ref>, ref: Ref)
    requires IsIndex(byText, order, entries)
    ensures IsIndex(byText[Text(ref) := ref], if Text(ref) in order then order else order + [Text(ref)], entries + [ref])
  {
    MapSnoc(Text, entries, ref);
    DistinctSnoc(Map(Text, entries), Text(ref));
    hide Text, Distinct, Map;
    forall text | text in Map(Text, entries + [ref])
      ensures RefOf(entries + [ref], text) == if text == Text(ref) then ref else RefOf(entries, text)
    {
      RefOfMore(entries, ref, text);
    }
    hide RefOf;
  }

  lemma RefOfMore(entries: seq<Ref>, ref: Ref, text: string)
    requires text in Map(Text, entries + [ref]) && (text == Text(ref) || text in Map(Text, entries))
    ensures RefOf(entries + [ref], text) == if text == Text(ref) then ref else RefOf(entries, text)
  {
    hide Text, Map;
    assert (entries + [ref])[..|entries|] == entries;
  }

  /** A record counts for two weeks, and when it is at most a day ahead. */
  lemma CountsExactly(record: Record, now: int)
    ensures Counts(record, now) <==> record.at - 86_400_000 <= now < record.at + 1_209_600_000
  {
  }

  /** The list of an open is the first hundred of its entries with a new ID. */
  lemma BoundedList(record: Record)
    ensures var each := FirstEach(record.configuration + record.defaults);
            Combined(record) == if |each| <= 100 then each else each[..100]
  {
    hide FirstEach;
  }

  // ---- What the union contains ----

  lemma TextIsUnique(a: Ref, b: Ref)
    requires IsEntry(a) && IsEntry(b) && Text(a) == Text(b)
    ensures a == b
  {
    var text := Text(a);
    assert a.pin.Some? ==> text[|a.id|] == '@' && text[|a.id| + 1..] == a.pin.value && text[..|a.id|] == a.id;
    assert b.pin.Some? ==> text[|b.id|] == '@' && text[|b.id| + 1..] == b.pin.value && text[..|b.id|] == b.id;
    assert forall k :: 0 <= k < |a.id| ==> text[k] == a.id[k] && a.id[k] in a.id;
    assert forall k :: 0 <= k < |b.id| ==> text[k] == b.id[k] && b.id[k] in b.id;
  }

  lemma {:induction false} AllAreEntries(records: seq<Record>, now: int)
    requires forall record :: record in records ==> IsChecked(record)
    ensures forall ref :: ref in AllEntries(records, now) ==> IsEntry(ref)
    ensures forall ref :: ref in AllEntries(records, now) <==>
              exists record :: record in records && Counts(record, now) && ref in Combined(record)
  {
    hide IsEntry, Counts, Combined, IsChecked;
    if records != [] {
      var init, last := records[..|records| - 1], records[|records| - 1];
      assert forall record :: record in records <==> record in init || record == last;
      AllAreEntries(init, now);
      CombinedIsChecked(last);
    }
  }

  lemma CombinedIsChecked(record: Record)
    requires IsChecked(record)
    ensures forall ref :: ref in Combined(record) ==> IsEntry(ref)
  {
  }

  lemma {:induction false} RefOfIs(entries: seq<Ref>, ref: Ref)
    requires ref in entries && forall other :: other in entries ==> IsEntry(other)
    ensures Text(ref) in Map(Text, entries) && RefOf(entries, Text(ref)) == ref
  {
    var k :| 0 <= k < |entries| && entries[k] == ref;
    assert Map(Text, entries)[k] == Text(ref);
    var init, last := entries[..|entries| - 1], entries[|entries| - 1];
    assert entries == init + [last];
    if Text(last) == Text(ref) {
      TextIsUnique(last, ref);
    } else {
      assert ref in init;
      RefOfIs(init, ref);
    }
  }

  /** The place of an entry's text among the sorted ones. */
  lemma PlaceOf(entries: seq<Ref>, ref: Ref) returns (k: nat)
    requires ref in entries
    ensures k < |SortedTexts(entries)| && SortedTexts(entries)[k] == Text(ref)
  {
    TextsAre(entries);
    var j :| 0 <= j < |entries| && entries[j] == ref;
    assert Map(Text, entries)[j] == Text(ref);
    hide SortedTexts, Text;
    assert Text(ref) in SortedTexts(entries);
    k :| 0 <= k < |SortedTexts(entries)| && SortedTexts(entries)[k] == Text(ref);
  }

  /** The union contains every entry of every list that counts exactly when it has at most as many entries as its bound. */
  lemma UnionIsWholeExactlyWithinItsBound(records: seq<Record>, now: int)
    requires forall record :: record in records ==> IsChecked(record)
    ensures var texts := Distinct(Map(Text, AllEntries(records, now)));
            (forall record, ref :: record in records && Counts(record, now) && ref in Combined(record) ==> ref in Wanted(records, now))
            <==> |texts| <= 200
  {
    var entries, wanted := AllEntries(records, now), Wanted(records, now);
    var texts := SortedTexts(entries);
    AllAreEntries(records, now);
    TextsAre(entries);
    forall ref | ref in entries
      ensures |texts| <= MAX_WANTED_EXTENSIONS ==> ref in wanted
    {
      var k := PlaceOf(entries, ref);
      RefOfIs(entries, ref);
      if k < MAX_WANTED_EXTENSIONS { assert wanted[k] == ref; }
    }
    if |texts| > MAX_WANTED_EXTENSIONS {
      var ref := CutOff(records, now);
      assert ref in entries && ref !in wanted;
    }
    hide Combined, Counts, Wanted, SortedTexts, AllEntries;
  }

  /** Behind the bound: an entry that is not in the union. */
  lemma CutOff(records: seq<Record>, now: int) returns (ref: Ref)
    requires forall record :: record in records ==> IsChecked(record)
    requires |SortedTexts(AllEntries(records, now))| > MAX_WANTED_EXTENSIONS
    ensures ref in AllEntries(records, now) && ref !in Wanted(records, now)
  {
    var entries, wanted := AllEntries(records, now), Wanted(records, now);
    var texts := SortedTexts(entries);
    TextsAre(entries);
    assert texts[MAX_WANTED_EXTENSIONS] in Map(Text, entries);
    var j :| 0 <= j < |entries| && Map(Text, entries)[j] == texts[MAX_WANTED_EXTENSIONS];
    ref := entries[j];
    forall k | 0 <= k < |wanted|
      ensures wanted[k] != ref
    {
      TextOfRef(entries, texts[k]);
      assert texts[k] != texts[MAX_WANTED_EXTENSIONS];
    }
  }

  lemma {:induction false} TextOfRef(entries: seq<Ref>, text: string)
    requires text in Map(Text, entries)
    ensures Text(RefOf(entries, text)) == text
  {
    if Text(entries[|entries| - 1]) != text {
      OtherText(entries, text);
      TextOfRef(entries[..|entries| - 1], text);
    }
  }

  /** From the record of an open to its seeds: while its record counts and the union is within its bound, no cleanup changes
      what an open with this list seeds. */
  lemma RecordedListKeepsItsSeeds(records: seq<Record>, now: int, record: Record, files: Files, platform: Option<Folder>,
                                  choices: Choices, readable: bool, gone: set<File>)
    requires forall r :: r in records ==> IsChecked(r)
    requires record in records && Counts(record, now)
    requires |Distinct(Map(Text, AllEntries(records, now)))| <= MAX_WANTED_EXTENSIONS
    requires IsCleanup(files, KeepFor(Wanted(records, now), readable, choices), gone)
    ensures Seeds(Combined(record), Without(files, gone), FoldersFor(platform), choices)
         == Seeds(Combined(record), files, FoldersFor(platform), choices)
  {
    UnionIsWholeExactlyWithinItsBound(records, now);
    CleanupKeepsSeeds(Combined(record), Wanted(records, now), files, platform, choices, readable, gone);
  }
}
