/** When a cleanup takes a file that a recorded list wants: exactly what the bound of the union of the lists costs
    (src/core/vscodeExtensions.ts, src/remoteMonitor/extensionDownloads.ts). */
module ExtensionLoss {
  import opened ExtensionCache
  import opened ExtensionLists
  import opened ExtensionNames
  import opened Numerals
  import opened Seqs
  import opened Sorting

  // ---- A seed changes exactly when it is taken ----

  lemma SeedSurvives(ref: Ref, files: Files, folders: seq<Folder>, choices: Choices, gone: set<File>)
    requires var seed := SeedOf(ref, files, folders, choices); seed.Some? ==> seed.value !in gone
    ensures SeedOf(ref, Without(files, gone), folders, choices) == SeedOf(ref, files, folders, choices)
  {
    hide ParseCached;
    if !IsChoice(ref, files, folders, choices) {
      ScanWithout(files, gone, folders);
      BestSurvives(ref, Scan(files, folders), file => file !in gone);
      hide Best, Scan;
    }
  }

  lemma {:induction false} ScanHas(files: Files, folders: seq<Folder>, file: File)
    requires file in Scan(files, folders)
    ensures file.name in NamesOf(files, file.folder)
  {
    var init, last := folders[..|folders| - 1], folders[|folders| - 1];
    if file !in InFolder(last, NamesOf(files, last)) { ScanHas(files, init, file); }
  }

  lemma SeedIsThere(ref: Ref, files: Files, folders: seq<Folder>, choices: Choices)
    requires SeedOf(ref, files, folders, choices).Some?
    ensures var seed := SeedOf(ref, files, folders, choices).value;
            seed.name in NamesOf(files, seed.folder)
  {
    hide ParseCached;
    if !IsChoice(ref, files, folders, choices) {
      ScanHas(files, folders, Best(ref, Scan(files, folders)).value);
    }
  }

  lemma {:induction false} SeedsAre(list: seq<Ref>, files: Files, folders: seq<Folder>, choices: Choices, file: File)
    ensures file in Seeds(list, files, folders, choices) <==> exists ref :: ref in list && SeedOf(ref, files, folders, choices) == Some(file)
  {
    hide SeedOf;
    if list != [] {
      var init, last := list[..|list| - 1], list[|list| - 1];
      assert list == init + [last];
      SeedsAre(init, files, folders, choices, file);
      assert last in list;
    }
  }

  lemma {:induction false} SeedsSurvive(list: seq<Ref>, files: Files, folders: seq<Folder>, choices: Choices, gone: set<File>)
    requires forall ref :: ref in list ==> var seed := SeedOf(ref, files, folders, choices); seed.Some? ==> seed.value !in gone
    ensures Seeds(list, Without(files, gone), folders, choices) == Seeds(list, files, folders, choices)
  {
    hide SeedOf, Without;
    if list != [] {
      var last := list[|list| - 1];
      assert last in list;
      SeedsSurvive(list[..|list| - 1], files, folders, choices, gone);
      SeedSurvives(last, files, folders, choices, gone);
    }
  }

  /** The cleanup names the file that an open would seed for the entry. */
  ghost predicate IsTaken(ref: Ref, keep: Keep, files: Files, folders: seq<Folder>, choices: Choices) {
    var seed := SeedOf(ref, files, folders, choices);
    seed.Some? && seed.value.name in RemovedNames(seed.value.folder, NamesOf(files, seed.value.folder), keep)
  }

  ghost predicate MayChange(list: seq<Ref>, keep: Keep, files: Files, folders: seq<Folder>, choices: Choices) {
    exists gone :: IsCleanup(files, keep, gone) && Seeds(list, Without(files, gone), folders, choices) != Seeds(list, files, folders, choices)
  }

  /** Some cleanup changes what an open seeds for a list exactly when it names the seed of one of its entries. */
  lemma ChangesExactly(list: seq<Ref>, keep: Keep, files: Files, folders: seq<Folder>, choices: Choices)
    ensures MayChange(list, keep, files, folders, choices) <==> exists ref :: ref in list && IsTaken(ref, keep, files, folders, choices)
  {
    hide SeedOf, RemovedNames, Without, Seeds;
    if ref :| ref in list && IsTaken(ref, keep, files, folders, choices) {
      TakenChanges(list, keep, files, folders, choices, ref);
    } else {
      forall gone | IsCleanup(files, keep, gone)
        ensures Seeds(list, Without(files, gone), folders, choices) == Seeds(list, files, folders, choices)
      {
        SeedsSurvive(list, files, folders, choices, gone);
      }
    }
  }

  lemma TakenChanges(list: seq<Ref>, keep: Keep, files: Files, folders: seq<Folder>, choices: Choices, ref: Ref)
    requires ref in list && IsTaken(ref, keep, files, folders, choices)
    ensures var file := SeedOf(ref, files, folders, choices).value;
            && IsCleanup(files, keep, {file})
            && file in Seeds(list, files, folders, choices) && file !in Seeds(list, Without(files, {file}), folders, choices)
    ensures MayChange(list, keep, files, folders, choices)
  {
    hide SeedOf, RemovedNames, Without, Seeds;
    var file := SeedOf(ref, files, folders, choices).value;
    var left := Without(files, {file});
    SeedsAre(list, files, folders, choices, file);
    SeedsAre(list, left, folders, choices, file);
    forall other
      ensures SeedOf(other, left, folders, choices) != Some(file)
    {
      GoneIsNoSeed(other, files, folders, choices, file);
    }
    assert IsCleanup(files, keep, {file});
  }

  lemma GoneIsNoSeed(ref: Ref, files: Files, folders: seq<Folder>, choices: Choices, file: File)
    ensures SeedOf(ref, Without(files, {file}), folders, choices) != Some(file)
  {
    hide SeedOf;
    var left := Without(files, {file});
    assert file.name !in NamesOf(left, file.folder);
    if SeedOf(ref, left, folders, choices).Some? { SeedIsThere(ref, left, folders, choices); }
  }

  // ---- When a seed is taken ----

  /** What a union does not keep of an entry's seed: its ID is in no list, or it is a pinned version that no list pins, neither
      chosen nor the newest of its folder. */
  ghost predicate IsUnkept(ref: Ref, seed: File, union: seq<Ref>, files: Files, choices: Choices, readable: bool) {
    || (readable && forall other :: other in union ==> other.id != ref.id)
    || (ref.pin.Some? && ref !in union && (forall entry :: entry in choices ==> choices[entry] != seed)
        && ref.pin.value != NewestVersion(seed.folder, NamesOf(files, seed.folder), ref.id))
  }

  lemma TakenExactly(ref: Ref, union: seq<Ref>, files: Files, folders: seq<Folder>, choices: Choices, readable: bool)
    ensures var seed := SeedOf(ref, files, folders, choices);
            IsTaken(ref, KeepFor(union, readable, choices), files, folders, choices) <==>
              seed.Some? && IsUnkept(ref, seed.value, union, files, choices, readable)
    ensures IsTaken(ref, KeepFor(union, readable, choices), files, folders, choices) ==> ref !in union
  {
    var seed := SeedOf(ref, files, folders, choices);
    if seed.Some? {
      var file, keep := seed.value, KeepFor(union, readable, choices);
      var names := NamesOf(files, file.folder);
      SeedIsThere(ref, files, folders, choices);
      RemovedNamesAre(file.folder, names, keep, file.name);
      SeedIsFor(ref, files, folders, choices);
      hide RemovedNames, SeedOf, NewestVersion, ParseCached;
      NamedIs(ref, union, readable, choices);
    }
  }

  lemma NamedIs(ref: Ref, union: seq<Ref>, readable: bool, choices: Choices)
    ensures var keep := KeepFor(union, readable, choices);
            && (keep.named.Some? <==> readable)
            && (readable ==> (ref.id in keep.named.value <==> exists other :: other in union && other.id == ref.id))
            && (ref.pin.Some? ==> (Cached(ref.id, ref.pin.value) in keep.pinned <==> ref in union))
            && (forall file :: file in keep.chosen <==> exists entry :: entry in choices && choices[entry] == file)
  {
  }

  /** What the seed of an entry is: of its ID and, with a pin, of its version; without a pin the chosen one or the newest of its
      folder. */
  lemma SeedIsFor(ref: Ref, files: Files, folders: seq<Folder>, choices: Choices)
    requires SeedOf(ref, files, folders, choices).Some?
    ensures var seed := SeedOf(ref, files, folders, choices).value;
            var cached := ParseCached(seed.name, seed.folder);
            && cached.Some? && cached.value.id == ref.id && (ref.pin.Some? ==> cached.value.version == ref.pin.value)
            && (ref.pin == None ==>
                  || (exists entry :: entry in choices && choices[entry] == seed)
                  || cached.value.version == NewestVersion(seed.folder, NamesOf(files, seed.folder), ref.id))
  {
    if !IsChoice(ref, files, folders, choices) {
      BestInItsFolder(ref, files, folders);
      assert ref.pin == None ==> ref == Ref(ref.id, None);
      hide Scan;
    }
    hide ParseCached, Best;
  }

  /** The entry's text is sorted behind the bound of the union. */
  ghost predicate IsBehindTheBound(entries: seq<Ref>, ref: Ref) {
    exists k :: MAX_WANTED_EXTENSIONS <= k < |SortedTexts(entries)| && SortedTexts(entries)[k] == Text(ref)
  }

  lemma WantedExactly(records: seq<Record>, now: int, ref: Ref)
    requires forall r :: r in records ==> IsChecked(r)
    requires ref in AllEntries(records, now)
    ensures ref in Wanted(records, now) <==> !IsBehindTheBound(AllEntries(records, now), ref)
  {
    var entries, wanted := AllEntries(records, now), Wanted(records, now);
    AllAreEntries(records, now);
    TextsAre(entries);
    var k := PlaceOf(entries, ref);
    RefOfIs(entries, ref);
    if k < MAX_WANTED_EXTENSIONS { assert wanted[k] == ref; }
    forall i | 0 <= i < |wanted| && wanted[i] == ref
      ensures SortedTexts(entries)[i] == Text(ref)
    {
      TextOfRef(entries, SortedTexts(entries)[i]);
    }
    hide SortedTexts, Text;
  }

  /** A cleanup may change what the open of a record that counts seeds if and only if one of its entries is sorted behind the bound
      of the union, the store has a file for it, and nothing else keeps this file. */
  lemma AWantedFileIsLostExactly(records: seq<Record>, now: int, record: Record, files: Files, folders: seq<Folder>, choices: Choices,
                                 readable: bool)
    requires forall r :: r in records ==> IsChecked(r)
    requires record in records && Counts(record, now)
    ensures var entries, union := AllEntries(records, now), Wanted(records, now);
            MayChange(Combined(record), KeepFor(union, readable, choices), files, folders, choices) <==>
              exists ref :: ref in Combined(record) && IsBehindTheBound(entries, ref)
                            && SeedOf(ref, files, folders, choices).Some?
                            && IsUnkept(ref, SeedOf(ref, files, folders, choices).value, union, files, choices, readable)
  {
    var entries, union, keep := AllEntries(records, now), Wanted(records, now), KeepFor(Wanted(records, now), readable, choices);
    ChangesExactly(Combined(record), keep, files, folders, choices);
    AllAreEntries(records, now);
    forall ref | ref in Combined(record)
      ensures IsTaken(ref, keep, files, folders, choices) <==>
                IsBehindTheBound(entries, ref) && SeedOf(ref, files, folders, choices).Some?
                && IsUnkept(ref, SeedOf(ref, files, folders, choices).value, union, files, choices, readable)
    {
      TakenExactly(ref, union, files, folders, choices, readable);
      WantedExactly(records, now, ref);
      UnkeptIsUnwanted(ref, union, files, folders, choices, readable);
    }
    hide MayChange, IsTaken, IsBehindTheBound, SeedOf, IsUnkept, Combined, Wanted, AllEntries, KeepFor;
  }

  lemma UnkeptIsUnwanted(ref: Ref, union: seq<Ref>, files: Files, folders: seq<Folder>, choices: Choices, readable: bool)
    ensures var seed := SeedOf(ref, files, folders, choices);
            seed.Some? && IsUnkept(ref, seed.value, union, files, choices, readable) ==> ref !in union
  {
    hide SeedOf, NewestVersion;
  }

  // ---- An input ----

  /** `a.a`, `a.aa`, `a.aaa`, …: valid IDs, sorted by their length. */
  function Letters(n: nat): string { if n == 0 then "" else Letters(n - 1) + "a" }

  function Id(n: nat): string { "a." + Letters(n + 1) }

  function Refs(from: nat, count: nat): seq<Ref> { seq(count, k requires 0 <= k < count => Ref(Id(from + k), None)) }

  const VERSION: string := "1.0.0"
  const MANY: seq<Record> := [Record(0, Refs(0, 100), []), Record(0, Refs(100, 100), []), Record(0, Refs(200, 1), [])]
  const LAST: Ref := Ref(Id(200), None)
  const LAST_FILE: File := File(Universal, Id(200) + "-" + VERSION)
  const STORE: Files := map[Universal := [Id(200) + "-" + VERSION]]

  lemma {:induction false} LettersAre(n: nat)
    ensures |Letters(n)| == n && forall c :: c in Letters(n) ==> c == 'a'
  {
    if n > 0 { LettersAre(n - 1); }
  }

  lemma {:induction false} LettersFront(n: nat)
    ensures Letters(n + 1) == "a" + Letters(n)
  {
    if n > 0 { LettersFront(n - 1); }
  }

  lemma {:induction false} LettersBefore(m: nat, n: nat)
    ensures TextBefore(Letters(m), Letters(n)) <==> m < n
  {
    LettersAre(m);
    LettersAre(n);
    if m > 0 && n > 0 {
      LettersFront(m - 1);
      LettersFront(n - 1);
      assert Letters(m)[1..] == Letters(m - 1) && Letters(n)[1..] == Letters(n - 1);
      LettersBefore(m - 1, n - 1);
    }
  }

  lemma IdBefore(m: nat, n: nat)
    ensures TextBefore(Id(m), Id(n)) <==> m < n
  {
    LettersBefore(m + 1, n + 1);
    assert Id(m)[1..][1..] == Letters(m + 1) && Id(n)[1..][1..] == Letters(n + 1);
    hide Letters;
    assert Id(m)[0] == Id(n)[0] && Id(m)[1..][0] == Id(n)[1..][0];
  }

  lemma IdsDiffer(m: nat, n: nat)
    ensures Id(m) == Id(n) ==> m == n
  {
    LettersAre(m + 1);
    LettersAre(n + 1);
    assert |Id(m)| == m + 3 && |Id(n)| == n + 3;
  }

  lemma IdIsEntry(n: nat)
    ensures IsEntry(Ref(Id(n), None)) && Text(Ref(Id(n), None)) == Id(n)
  {
    LettersAre(n + 1);
    hide Letters;
  }

  /** Entries with different IDs, none twice. */
  lemma {:induction false} RefsStay(from: nat, count: nat)
    ensures FirstEach(Refs(from, count)) == Refs(from, count)
  {
    if count > 0 {
      RefsStay(from, count - 1);
      var init := Refs(from, count - 1);
      assert Refs(from, count)[..count - 1] == init;
      forall k | 0 <= k < |init|
        ensures init[k].id != Id(from + count - 1)
      {
        IdsDiffer(from + k, from + count - 1);
      }
      hide Id;
    }
  }

  lemma CombinedIs(from: nat, count: nat)
    requires count <= MAX_LISTED_EXTENSIONS
    ensures Combined(Record(0, Refs(from, count), [])) == Refs(from, count) && IsChecked(Record(0, Refs(from, count), []))
  {
    hide Id, IsEntry, FirstEach;
    RefsStay(from, count);
    var refs := Refs(from, count);
    assert refs + [] == refs;
    forall ref | ref in refs + []
      ensures IsEntry(ref)
    {
      var k :| 0 <= k < count && refs[k] == ref;
      IdIsEntry(from + k);
    }
  }

  lemma AllOfMany()
    ensures AllEntries(MANY, 0) == Refs(0, 201)
  {
    hide Combined, Refs, IsChecked;
    CombinedIs(0, 100);
    CombinedIs(100, 100);
    CombinedIs(200, 1);
    RefsJoin(0, 100, 100);
    RefsJoin(0, 200, 1);
    var none: seq<Ref> := [];
    assert MANY[..2][..1][..0] == [] && MANY[..2][..1] == [MANY[0]] && MANY[..2] == [MANY[0], MANY[1]];
    assert AllEntries(MANY[..2][..1], 0) == none + Refs(0, 100) == Refs(0, 100);
    assert AllEntries(MANY[..2], 0) == Refs(0, 200);
  }

  lemma RefsJoin(from: nat, n: nat, m: nat)
    ensures Refs(from, n) + Refs(from + n, m) == Refs(from, n + m)
  {
    hide Id;
  }

  function IdsUpTo(n: nat): seq<string> { seq(n, k requires 0 <= k < n => Id(k)) }

  lemma {:induction false} TextsOfRefs(n: nat)
    ensures Map(Text, Refs(0, n)) == IdsUpTo(n) && Distinct(IdsUpTo(n)) == IdsUpTo(n)
  {
    hide Id, Text, Distinct;
    forall k | 0 <= k < n
      ensures Text(Refs(0, n)[k]) == Id(k)
    {
      IdIsEntry(k);
    }
    IdsAreDistinct(n);
  }

  lemma {:induction false} IdsAreDistinct(n: nat)
    ensures Distinct(IdsUpTo(n)) == IdsUpTo(n)
  {
    hide Id;
    if n > 0 {
      IdsAreDistinct(n - 1);
      var init := IdsUpTo(n - 1);
      assert IdsUpTo(n)[..n - 1] == init;
      forall k | 0 <= k < |init|
        ensures init[k] != Id(n - 1)
      {
        IdsDiffer(k, n - 1);
      }
    }
  }

  lemma {:induction false} SortedStays(s: seq<string>)
    requires Sorted(TextBefore, s)
    ensures StableSort(TextBefore, s) == s
  {
    hide TextBefore;
    if s != [] {
      SortedStays(s[1..]);
      assert s == [s[0]] + s[1..];
    }
  }

  lemma IdsAreSorted(n: nat)
    ensures SortedTexts(Refs(0, n)) == IdsUpTo(n)
  {
    TextsOfRefs(n);
    var ids := IdsUpTo(n);
    forall j, k | 0 <= j < k < n
      ensures !TextBefore(ids[k], ids[j])
    {
      IdBefore(k, j);
    }
    hide Id, Text, TextBefore, Distinct, Map, StableSort;
    SortedStays(ids);
  }

  /** The 201st entry is behind the bound, and no entry of the union has its ID. */
  lemma LastIsBehind()
    ensures IsBehindTheBound(AllEntries(MANY, 0), LAST) && forall ref :: ref in Wanted(MANY, 0) ==> ref.id != LAST.id
  {
    hide StableSort, Distinct, Map, Id, Text, Combined, RefOf;
    AllOfMany();
    IdsAreSorted(201);
    IdIsEntry(200);
    var entries := Refs(0, 201);
    TextsAre(entries);
    hide SortedTexts, AllEntries;
    var ids, wanted := IdsUpTo(201), FirstTexts(entries);
    assert ids[200] == Text(LAST);
    assert |wanted| == MAX_WANTED_EXTENSIONS;
    forall k | 0 <= k < |wanted|
      ensures wanted[k].id != LAST.id
    {
      assert ids[k] == Id(k);
      RefIsOf(entries, k);
      IdsDiffer(k, 200);
    }
  }

  lemma RefIsOf(entries: seq<Ref>, k: nat)
    requires entries == Refs(0, 201) && k < 201 && Id(k) in Map(Text, entries)
    ensures RefOf(entries, Id(k)).id == Id(k)
  {
    RefOfIn(entries, Id(k));
    var ref := RefOf(entries, Id(k));
    var j :| 0 <= j < 201 && entries[j] == ref;
    TextOfRef(entries, Id(k));
    IdIsEntry(j);
  }

  lemma {:induction false} RefOfIn(entries: seq<Ref>, text: string)
    requires text in Map(Text, entries)
    ensures RefOf(entries, text) in entries
  {
    if Text(entries[|entries| - 1]) != text {
      OtherText(entries, text);
      RefOfIn(entries[..|entries| - 1], text);
    }
  }

  // ---- Its file ----

  lemma {:induction false} SplitNoDot(s: string)
    requires '.' !in s
    ensures Split(s) == [s]
  {
    if s != [] {
      assert s[0] in s && forall c :: c in s[1..] ==> c in s;
      SplitNoDot(s[1..]);
      assert [s[0]] + s[1..] == s;
    }
  }

  lemma {:induction false} SplitAtDot(a: string, b: string)
    requires '.' !in a
    ensures Split(a + "." + b) == [a] + Split(b)
  {
    var s := a + "." + b;
    if a == [] {
      assert s[1..] == b;
    } else {
      assert a[0] in a && forall c :: c in a[1..] ==> c in a;
      assert s[1..] == a[1..] + "." + b;
      SplitAtDot(a[1..], b);
      assert [a[0]] + a[1..] == a;
    }
  }

  lemma IdIsId(n: nat)
    ensures IsId(Id(n))
  {
    LettersAre(n + 1);
    SplitAtDot("a", Letters(n + 1));
    SplitNoDot(Letters(n + 1));
    assert "a" + "." + Letters(n + 1) == Id(n);
    hide Letters, Split;
    assert Split(Id(n)) == ["a", Letters(n + 1)];
    assert Letters(n + 1)[0] in Letters(n + 1);
  }

  lemma VersionIsVersion()
    ensures IsVersion(VERSION)
  {
    SplitNoDot("0");
    SplitAtDot("0", "0");
    SplitAtDot("1", "0.0");
    assert "0" + "." + "0" == "0.0" && "1" + "." + "0.0" == VERSION;
    hide Split;
    assert Split(VERSION) == ["1", "0", "0"];
  }

  lemma LastFileIs()
    ensures ParseCached(LAST_FILE.name, Universal) == Some(Cached(LAST.id, VERSION))
  {
    IdIsId(200);
    VersionIsVersion();
    assert LAST_FILE.name == Id(200) + "-" + VERSION + Suffix(Universal);
    ParseIsMatch(LAST_FILE.name, Universal, Id(200), VERSION);
    hide ParseCached, IsId, IsVersion;
  }

  lemma SeedIsLast(choices: Choices)
    requires LAST.id !in choices
    ensures SeedOf(LAST, STORE, FoldersFor(None), choices) == Some(LAST_FILE)
  {
    LastFileIs();
    hide ParseCached, Id;
    assert [Universal][..0] == [];
    var none: seq<File> := [];
    assert InFolder(Universal, [LAST_FILE.name]) == [LAST_FILE];
    assert Scan(STORE, FoldersFor(None)) == none + [LAST_FILE];
    BestStep(LAST, none, LAST_FILE);
  }

  lemma NoSeedLeft(choices: Choices)
    requires LAST.id !in choices
    ensures SeedOf(LAST, Without(STORE, {LAST_FILE}), FoldersFor(None), choices) == None
  {
    var left := Without(STORE, {LAST_FILE});
    if SeedOf(LAST, left, FoldersFor(None), choices).Some? {
      SeedIsThere(LAST, left, FoldersFor(None), choices);
      assert false;
    }
  }

  /** Three recorded lists with 201 entries between them: the store's only file of the last one, which an open with its list seeds,
      is named by the cleanup, and the open seeds nothing afterwards. */
  lemma AWantedFileMayBeLost(choices: Choices)
    requires LAST.id !in choices
    ensures (forall r :: r in MANY ==> IsChecked(r) && Counts(r, 0)) && Combined(MANY[2]) == [LAST]
    ensures IsCleanup(STORE, KeepFor(Wanted(MANY, 0), true, choices), {LAST_FILE})
    ensures Seeds([LAST], STORE, FoldersFor(None), choices) == [LAST_FILE]
    ensures Seeds([LAST], Without(STORE, {LAST_FILE}), FoldersFor(None), choices) == []
  {
    hide *;
    ManyCount();
    LastIsTaken(choices);
    TakenChanges([LAST], KeepFor(Wanted(MANY, 0), true, choices), STORE, FoldersFor(None), choices, LAST);
    SeedIsLast(choices);
    NoSeedLeft(choices);
    OneSeed(LAST, STORE, choices);
    OneSeed(LAST, Without(STORE, {LAST_FILE}), choices);
  }

  lemma ManyCount()
    ensures (forall r :: r in MANY ==> IsChecked(r) && Counts(r, 0)) && Combined(MANY[2]) == [LAST]
  {
    CombinedIs(0, 100);
    CombinedIs(100, 100);
    CombinedIs(200, 1);
    hide Combined, IsChecked, Id, Refs;
    OneRef();
  }

  lemma OneRef()
    ensures Refs(200, 1) == [LAST]
  {
    hide Id;
  }

  lemma LastIsTaken(choices: Choices)
    requires LAST.id !in choices
    ensures IsTaken(LAST, KeepFor(Wanted(MANY, 0), true, choices), STORE, FoldersFor(None), choices)
  {
    LastIsBehind();
    SeedIsLast(choices);
    TakenExactly(LAST, Wanted(MANY, 0), STORE, FoldersFor(None), choices, true);
    hide IsTaken, Wanted, SeedOf, KeepFor, NewestVersion, Id, IsBehindTheBound;
  }

  lemma OneSeed(ref: Ref, files: Files, choices: Choices)
    ensures var seed := SeedOf(ref, files, FoldersFor(None), choices);
            Seeds([ref], files, FoldersFor(None), choices) == if seed.Some? then [seed.value] else []
  {
    hide SeedOf, FoldersFor;
    assert [ref][..0] == [];
  }
}
