/** The shared extension cache: the files that an open seeds and the files that the cleanup removes, in two processes
    (src/core/vscodeExtensions.ts, src/remoteMonitor/extensionDownloads.ts). */
module ExtensionCache {
  import opened ExtensionNames
  import opened Numerals
  import opened Seqs
  import opened Sorting

  /** An entry of a list: an extension, with its pinned version or without one. */
  datatype Ref = Ref(id: string, pin: Option<string>)

  /** `<folder>/<name>` */
  datatype File = File(folder: Folder, name: string)

  /** The files of the store, by folder, in the order of their listing. */
  type Files = map<Folder, seq<string>>

  /** What the monitor's runs chose, by the text of the entry (that of an entry without a pin is its ID). */
  type Choices = map<string, File>

  function NamesOf(files: Files, folder: Folder): seq<string> { Group(files, folder) }

  // ---- The order of versions ----

  function Part(version: string, k: nat): nat { if k < |Split(version)| then Value(Split(version)[k]) else 0 }

  /** The first difference of the three numbers. */
  function Difference(a: string, b: string): int {
    if Part(a, 0) != Part(b, 0) then Part(a, 0) - Part(b, 0)
    else if Part(a, 1) != Part(b, 1) then Part(a, 1) - Part(b, 1)
    else Part(a, 2) - Part(b, 2)
  }

  method CompareVersions(a: string, b: string) returns (difference: int)
    ensures difference == Difference(a, b)
  {
    var left, right := Split(a), Split(b);
    for index := 0 to 3
      invariant forall k :: 0 <= k < index ==> Part(a, k) == Part(b, k)
    {
      var l := if index < |left| then Value(left[index]) else 0;
      var r := if index < |right| then Value(right[index]) else 0;
      if l - r != 0 { return l - r; }
    }
    return 0;
  }

  predicate Newer(a: string, b: string) { Difference(a, b) > 0 }

  /** The comparison is an order of the numbers: what is not newer than something is not newer than what is newer still. */
  lemma NewerOrder(a: string, b: string, c: string)
    ensures Newer(a, b) ==> !Newer(b, a)
    ensures Newer(a, b) && !Newer(c, b) ==> Newer(a, c)
    ensures !Newer(a, b) && !Newer(b, c) ==> !Newer(a, c)
  {
    hide Part;
  }

  /** The newer of two versions is the one with the greater number at their first difference. */
  lemma NewerByNumbers(a: seq<nat>, b: seq<nat>)
    requires |a| == |b| == 3
    ensures Newer(Dotted(a), Dotted(b)) <==>
              a[0] > b[0] || (a[0] == b[0] && (a[1] > b[1] || (a[1] == b[1] && a[2] > b[2])))
  {
    SplitDotted(a);
    SplitDotted(b);
    hide Split, Dotted, Value, Numeral;
  }

  // ---- What an open seeds ----

  predicate IsFor(ref: Ref, file: File) {
    var cached := ParseCached(file.name, file.folder);
    cached.Some? && cached.value.id == ref.id && (ref.pin.Some? ==> cached.value.version == ref.pin.value)
  }

  function VersionOf(file: File): string {
    var cached := ParseCached(file.name, file.folder);
    if cached.Some? then cached.value.version else ""
  }

  /** The first of the newest files of an entry, in the order in which they are looked at. */
  function Best(ref: Ref, scan: seq<File>): (best: Option<File>)
    ensures best.Some? ==> best.value in scan && IsFor(ref, best.value)
  {
    if scan == [] then None
    else
      var before, file := Best(ref, scan[..|scan| - 1]), scan[|scan| - 1];
      if IsFor(ref, file) && (before == None || Newer(VersionOf(file), VersionOf(before.value))) then Some(file) else before
  }

  function InFolder(folder: Folder, names: seq<string>): (scan: seq<File>)
    ensures forall file :: file in scan <==> file.folder == folder && file.name in names
  {
    Map(name => File(folder, name), names)
  }

  /** The files of the folders, one folder behind the other. */
  function Scan(files: Files, folders: seq<Folder>): seq<File> {
    if folders == [] then []
    else Scan(files, folders[..|folders| - 1]) + InFolder(folders[|folders| - 1], NamesOf(files, folders[|folders| - 1]))
  }

  /** The folder of the container's platform before that of the files without one. */
  function FoldersFor(platform: Option<Folder>): seq<Folder> {
    if platform.Some? then [platform.value, Universal] else [Universal]
  }

  predicate IsChoice(ref: Ref, files: Files, folders: seq<Folder>, choices: Choices) {
    && ref.pin == None && ref.id in choices
    && var choice := choices[ref.id];
       && choice.folder in folders && choice.name in NamesOf(files, choice.folder)
       && ParseCached(choice.name, choice.folder).Some? && ParseCached(choice.name, choice.folder).value.id == ref.id
  }

  function SeedOf(ref: Ref, files: Files, folders: seq<Folder>, choices: Choices): Option<File> {
    if IsChoice(ref, files, folders, choices) then Some(choices[ref.id]) else Best(ref, Scan(files, folders))
  }

  function Seeds(wanted: seq<Ref>, files: Files, folders: seq<Folder>, choices: Choices): seq<File> {
    if wanted == [] then []
    else
      var before, file := Seeds(wanted[..|wanted| - 1], files, folders, choices), SeedOf(wanted[|wanted| - 1], files, folders, choices);
      if file.Some? then before + [file.value] else before
  }

  /** One file of the scan: it becomes the best one when it is of the entry and strictly newer. */
  method Better(ref: Ref, file: File, before: Option<File>) returns (best: Option<File>)
    ensures best == if IsFor(ref, file) && (before == None || Newer(VersionOf(file), VersionOf(before.value))) then Some(file) else before
  {
    hide ParseCached;
    best := before;
    var cached := ParseCached(file.name, file.folder);
    if cached == None || cached.value.id != ref.id { return; }
    if ref.pin.Some? && cached.value.version != ref.pin.value { return; }
    if best == None { return Some(file); }
    var newer := IsNewerThan(cached.value.version, VersionOf(best.value));
    if newer { best := Some(file); }
  }

  /** The newest file of an entry in the folders. */
  method BestFile(ref: Ref, files: Files, folders: seq<Folder>) returns (best: Option<File>)
    ensures best == Best(ref, Scan(files, folders))
  {
    best := None;
    assert folders[..0] == [];
    for i := 0 to |folders|
      invariant best == Best(ref, Scan(files, folders[..i]))
    {
      var folder := folders[i];
      var names := NamesOf(files, folder);
      ghost var before := Scan(files, folders[..i]);
      assert before + InFolder(folder, names[..0]) == before;
      for j := 0 to |names|
        invariant best == Best(ref, before + InFolder(folder, names[..j]))
      {
        var file := File(folder, names[j]);
        ScanStep(before, folder, names, j);
        BestStep(ref, before + InFolder(folder, names[..j]), file);
        best := Better(ref, file, best);
      }
      assert names[..|names|] == names;
      assert folders[..i + 1][..i] == folders[..i];
    }
    assert folders[..|folders|] == folders;
  }

  lemma ScanStep(before: seq<File>, folder: Folder, names: seq<string>, j: nat)
    requires j < |names|
    ensures before + InFolder(folder, names[..j + 1]) == before + InFolder(folder, names[..j]) + [File(folder, names[j])]
  {
    assert names[..j + 1] == names[..j] + [names[j]];
    MapSnoc(name => File(folder, name), names[..j], names[j]);
    assert InFolder(folder, names[..j + 1]) == InFolder(folder, names[..j]) + [File(folder, names[j])];
  }

  lemma BestStep(ref: Ref, scan: seq<File>, file: File)
    ensures var before := Best(ref, scan);
            Best(ref, scan + [file]) ==
              if IsFor(ref, file) && (before == None || Newer(VersionOf(file), VersionOf(before.value))) then Some(file) else before
  {
    assert (scan + [file])[..|scan|] == scan;
  }

  /** The files that an open seeds. */
  method SeedSelection(wanted: seq<Ref>, files: Files, platform: Option<Folder>, choices: Choices) returns (chosen: seq<File>)
    ensures chosen == Seeds(wanted, files, FoldersFor(platform), choices)
  {
    var folders := FoldersFor(platform);
    chosen := [];
    assert wanted[..0] == [];
    for i := 0 to |wanted|
      invariant chosen == Seeds(wanted[..i], files, folders, choices)
    {
      assert wanted[..i + 1][..i] == wanted[..i];
      var ref := wanted[i];
      if ref.pin == None && ref.id in choices {
        var choice := choices[ref.id];
        var cached := ParseCached(choice.name, choice.folder);
        if choice.folder in folders && choice.name in NamesOf(files, choice.folder) && cached.Some? && cached.value.id == ref.id {
          chosen := chosen + [choice];
          continue;
        }
      }
      var best := BestFile(ref, files, folders);
      if best.Some? { chosen := chosen + [best.value]; }
    }
    assert wanted[..|wanted|] == wanted;
  }

  // ---- What the cleanup removes ----

  /** What the cleanup must keep: the pinned versions of the recorded lists, the IDs that they name (none when a record
      could not be read), and the files that the monitor's runs chose. */
  datatype Keep = Keep(pinned: set<Cached>, named: Option<set<string>>, chosen: set<File>)

  /** A file of the cache that no recent list wants: no list names its ID, or it is neither chosen nor pinned nor the newest
      of its ID in its folder. */
  predicate IsRemoved(folder: Folder, names: seq<string>, keep: Keep, name: string) {
    var cached := ParseCached(name, folder);
    && cached.Some?
    && ((keep.named.Some? && cached.value.id !in keep.named.value)
        || (File(folder, name) !in keep.chosen
            && cached.value.version != NewestVersion(folder, names, cached.value.id)
            && cached.value !in keep.pinned))
  }

  /** The version of the first of the newest files of an ID in a folder. */
  function NewestVersion(folder: Folder, names: seq<string>, id: string): string {
    var best := Best(Ref(id, None), InFolder(folder, names));
    if best.Some? then VersionOf(best.value) else ""
  }

  /** The order of texts by their characters. */
  predicate TextBefore(a: string, b: string) {
    b != [] && (a == [] || a[0] < b[0] || (a[0] == b[0] && TextBefore(a[1..], b[1..])))
  }

  function RemovedNames(folder: Folder, names: seq<string>, keep: Keep): seq<string> {
    StableSort(TextBefore, Filter(name => IsRemoved(folder, names, keep, name), names))
  }

  method ExtensionFilesToRemove(folder: Folder, names: seq<string>, keep: Keep) returns (removed: seq<string>)
    ensures removed == RemovedNames(folder, names, keep)
  {
    var newest: map<string, string> := map[];
    var parsed: seq<(string, Cached)> := [];
    assert NewestKnown(newest, folder, names[..0]) && parsed == ParsedOf(folder, names[..0]);
    hide NewestKnown, ParsedOf, ParseCached, Newer;
    for i := 0 to |names|
      invariant NewestKnown(newest, folder, names[..i]) && parsed == ParsedOf(folder, names[..i])
    {
      var name := names[i];
      assert names[..i + 1] == names[..i] + [name];
      NewestStep(newest, folder, names[..i], name);
      ParsedStep(folder, names[..i], name);
      var cached := ParseCached(name, folder);
      if cached == None { continue; }
      parsed := parsed + [(name, cached.value)];
      var id, version := cached.value.id, cached.value.version;
      var newer := id !in newest;
      if !newer { newer := IsNewerThan(version, newest[id]); }
      if newer { newest := newest[id := version]; }
    }
    assert names[..|names|] == names;
    RemovedAsParsed(newest, folder, names, keep, names);
    var kept := Filter(file => IsRemovedFile(newest, folder, keep, file), parsed);
    removed := StableSort(TextBefore, Map(NameOf, kept));
  }

  method IsNewerThan(a: string, b: string) returns (newer: bool)
    ensures newer == Newer(a, b)
  {
    var difference := CompareVersions(a, b);
    newer := difference > 0;
  }

  lemma ParsedStep(folder: Folder, names: seq<string>, name: string)
    ensures ParsedOf(folder, names + [name]) ==
              if ParseCached(name, folder).Some? then ParsedOf(folder, names) + [(name, ParseCached(name, folder).value)]
              else ParsedOf(folder, names)
  {
    assert (names + [name])[..|names|] == names;
  }

  function NameOf(file: (string, Cached)): string { file.0 }

  predicate IsRemovedFile(newest: map<string, string>, folder: Folder, keep: Keep, file: (string, Cached)) {
    if keep.named.Some? && file.1.id !in keep.named.value then true
    else if File(folder, file.0) in keep.chosen then false
    else (file.1.id !in newest || newest[file.1.id] != file.1.version) && file.1 !in keep.pinned
  }

  function ParsedOf(folder: Folder, names: seq<string>): seq<(string, Cached)> {
    if names == [] then []
    else
      var before, name := ParsedOf(folder, names[..|names| - 1]), names[|names| - 1];
      var cached := ParseCached(name, folder);
      if cached.Some? then before + [(name, cached.value)] else before
  }

  predicate IsNewestKnown(newest: map<string, string>, scan: seq<File>, id: string) {
    var best := Best(Ref(id, None), scan);
    (id in newest <==> best.Some?) && (best.Some? ==> newest[id] == VersionOf(best.value))
  }

  /** The map of the loop holds the newest version of each ID. */
  ghost predicate NewestKnown(newest: map<string, string>, folder: Folder, names: seq<string>) {
    forall id :: IsNewestKnown(newest, InFolder(folder, names), id)
  }

  lemma NewestStep(newest: map<string, string>, folder: Folder, names: seq<string>, name: string)
    requires NewestKnown(newest, folder, names)
    ensures var cached := ParseCached(name, folder);
            NewestKnown(if cached.Some? && (cached.value.id in newest ==> Newer(cached.value.version, newest[cached.value.id]))
                        then newest[cached.value.id := cached.value.version] else newest, folder, names + [name])
  {
    var cached := ParseCached(name, folder);
    var now := if cached.Some? && (cached.value.id in newest ==> Newer(cached.value.version, newest[cached.value.id]))
               then newest[cached.value.id := cached.value.version] else newest;
    MapSnoc(n => File(folder, n), names, name);
    assert InFolder(folder, names + [name]) == InFolder(folder, names) + [File(folder, name)];
    hide ParseCached, Newer, InFolder, Best, IsNewestKnown;
    forall id: string
      ensures IsNewestKnown(now, InFolder(folder, names + [name]), id)
    {
      assert IsNewestKnown(newest, InFolder(folder, names), id);
      NewestStepAt(newest, InFolder(folder, names), File(folder, name), now, id);
    }
  }

  lemma NewestStepAt(newest: map<string, string>, scan: seq<File>, file: File, now: map<string, string>, id: string)
    requires IsNewestKnown(newest, scan, id)
    requires var cached := ParseCached(file.name, file.folder);
             now == if cached.Some? && (cached.value.id in newest ==> Newer(cached.value.version, newest[cached.value.id]))
                    then newest[cached.value.id := cached.value.version] else newest
    ensures IsNewestKnown(now, scan + [file], id)
  {
    hide ParseCached, Newer, Best;
    BestStep(Ref(id, None), scan, file);
  }

  lemma RemovedAlike(newest: map<string, string>, folder: Folder, all: seq<string>, keep: Keep, name: string)
    requires NewestKnown(newest, folder, all) && name in all && ParseCached(name, folder).Some?
    ensures IsRemovedFile(newest, folder, keep, (name, ParseCached(name, folder).value)) == IsRemoved(folder, all, keep, name)
  {
    var cached := ParseCached(name, folder).value;
    assert IsNewestKnown(newest, InFolder(folder, all), cached.id);
    assert File(folder, name) in InFolder(folder, all);
    BestIsThere(Ref(cached.id, None), InFolder(folder, all), File(folder, name));
    hide ParseCached, Best, InFolder, VersionOf;
  }

  lemma {:induction false} RemovedAsParsed(newest: map<string, string>, folder: Folder, all: seq<string>, keep: Keep, names: seq<string>)
    requires NewestKnown(newest, folder, all)
    requires forall name :: name in names ==> name in all
    ensures Map(NameOf, Filter(file => IsRemovedFile(newest, folder, keep, file), ParsedOf(folder, names)))
            == Filter(name => IsRemoved(folder, all, keep, name), names)
  {
    hide ParseCached, NewestKnown, IsRemoved, IsRemovedFile;
    if names != [] {
      var init, name := names[..|names| - 1], names[|names| - 1];
      RemovedAsParsed(newest, folder, all, keep, init);
      var cached := ParseCached(name, folder);
      var removed := n => IsRemoved(folder, all, keep, n);
      assert names == init + [name];
      FilterSnoc(removed, init, name);
      if cached.Some? {
        var file := (name, cached.value);
        var test := file => IsRemovedFile(newest, folder, keep, file);
        RemovedAlike(newest, folder, all, keep, name);
        FilterSnoc(test, ParsedOf(folder, init), file);
        MapSnoc(NameOf, Filter(test, ParsedOf(folder, init)), file);
      } else {
        NotRemoved(folder, all, keep, name);
      }
    }
  }

  lemma NotRemoved(folder: Folder, all: seq<string>, keep: Keep, name: string)
    requires ParseCached(name, folder) == None
    ensures !IsRemoved(folder, all, keep, name)
  {
    hide ParseCached;
  }

  /** With a file of an entry there is a best one, and none is newer than it. */
  lemma {:induction false} BestIsThere(ref: Ref, scan: seq<File>, file: File)
    requires file in scan && IsFor(ref, file)
    ensures Best(ref, scan).Some? && !Newer(VersionOf(file), VersionOf(Best(ref, scan).value))
  {
    hide VersionOf, Newer, IsFor;
    var init, last := scan[..|scan| - 1], scan[|scan| - 1];
    var before := Best(ref, init);
    NotNewerThanItself(VersionOf(last));
    if file != last || file in init {
      assert file in init;
      BestIsThere(ref, init, file);
      NewerBeats(VersionOf(last), VersionOf(before.value), VersionOf(file));
    }
  }

  lemma NotNewerThanItself(a: string)
    ensures !Newer(a, a)
  {
    NewerOrder(a, a, a);
  }

  lemma NewerBeats(a: string, b: string, c: string)
    ensures Newer(a, b) && !Newer(c, b) ==> !Newer(c, a)
  {
    NewerOrder(a, b, c);
    NewerOrder(a, c, a);
  }

  // ---- The two agree ----

  lemma {:induction false} BestSurvives(ref: Ref, scan: seq<File>, kept: File -> bool)
    requires Best(ref, scan).Some? ==> kept(Best(ref, scan).value)
    ensures Best(ref, Filter(kept, scan)) == Best(ref, scan)
  {
    if scan != [] {
      var init, last := scan[..|scan| - 1], scan[|scan| - 1];
      hide IsFor, VersionOf, Newer;
      var after := Best(ref, Filter(kept, init));
      if kept(last) { BestStep(ref, Filter(kept, init), last); }
      if Best(ref, scan) == Best(ref, init) {
        BestSurvives(ref, init, kept);
      } else if after.Some? {
        BestIsThere(ref, init, after.value);
        NewerOrder(VersionOf(last), VersionOf(Best(ref, init).value), VersionOf(after.value));
      }
    }
  }

  lemma {:induction false} BestOfBoth(ref: Ref, a: seq<File>, b: seq<File>)
    ensures Best(ref, a + b) == Best(ref, a) || Best(ref, a + b) == Best(ref, b)
    ensures Best(ref, b).Some? && Best(ref, a + b) != Best(ref, b) ==>
              Best(ref, a).Some? && !Newer(VersionOf(Best(ref, b).value), VersionOf(Best(ref, a).value))
    ensures Best(ref, a).Some? && Best(ref, a + b) != Best(ref, a) ==>
              Best(ref, b).Some? && Newer(VersionOf(Best(ref, b).value), VersionOf(Best(ref, a).value))
  {
    if b == [] {
      assert a + b == a;
    } else {
      var init, last := b[..|b| - 1], b[|b| - 1];
      BestOfBoth(ref, a, init);
      assert a + b == a + init + [last];
      BestStep(ref, a + init, last);
      hide IsFor, VersionOf, Newer;
      var x, y := Best(ref, a), Best(ref, init);
      if x.Some? && y.Some? {
        NewerOrder(VersionOf(last), VersionOf(x.value), VersionOf(y.value));
        NewerOrder(VersionOf(last), VersionOf(y.value), VersionOf(x.value));
      }
    }
  }

  /** The same version in both folders: the file of the platform. One of the files without a platform is seeded instead only
      when it is strictly newer. */
  lemma PlatformComesFirst(ref: Ref, files: Files, platform: Folder)
    ensures var own, other := Best(ref, InFolder(platform, NamesOf(files, platform))), Best(ref, InFolder(Universal, NamesOf(files, Universal)));
            Best(ref, Scan(files, FoldersFor(Some(platform)))) ==
              if own.Some? && (other.Some? ==> !Newer(VersionOf(other.value), VersionOf(own.value))) then own
              else other
  {
    var a, b := InFolder(platform, NamesOf(files, platform)), InFolder(Universal, NamesOf(files, Universal));
    var folders := FoldersFor(Some(platform));
    assert folders[..1] == [platform] && [platform][..0] == [];
    assert Scan(files, []) + a == a;
    assert Scan(files, [platform]) == a;
    assert Scan(files, folders) == a + b;
    BestOfBoth(ref, a, b);
    hide Best, InFolder, Scan, VersionOf, Newer;
  }

  /** The best file of all folders is the best one of its own folder. */
  lemma {:induction false} BestInItsFolder(ref: Ref, files: Files, folders: seq<Folder>)
    requires Best(ref, Scan(files, folders)).Some?
    ensures var best := Best(ref, Scan(files, folders));
            best.value.name in NamesOf(files, best.value.folder)
            && best == Best(ref, InFolder(best.value.folder, NamesOf(files, best.value.folder)))
  {
    var init, last := folders[..|folders| - 1], folders[|folders| - 1];
    BestOfBoth(ref, Scan(files, init), InFolder(last, NamesOf(files, last)));
    hide InFolder;
    if Best(ref, Scan(files, folders)) != Best(ref, InFolder(last, NamesOf(files, last))) {
      BestInItsFolder(ref, files, init);
    }
  }

  /** The store without some files. */
  function Without(files: Files, gone: set<File>): Files {
    map folder | folder in files :: Filter(name => File(folder, name) !in gone, files[folder])
  }

  lemma {:induction false} ScanWithout(files: Files, gone: set<File>, folders: seq<Folder>)
    ensures Scan(Without(files, gone), folders) == Filter(file => file !in gone, Scan(files, folders))
  {
    if folders != [] {
      var init, last := folders[..|folders| - 1], folders[|folders| - 1];
      ScanWithout(files, gone, init);
      var names := NamesOf(files, last);
      FilterAppend(file => file !in gone, Scan(files, init), InFolder(last, names));
      MapFilter(name => File(last, name), name => File(last, name) !in gone, file => file !in gone, names);
    }
  }

  /** What the cleanup keeps for the union of the recorded lists; `readable`: every record could be read. */
  function KeepFor(union: seq<Ref>, readable: bool, choices: Choices): Keep {
    Keep(set ref | ref in union && ref.pin.Some? :: Cached(ref.id, ref.pin.value),
         if readable then Some(set ref | ref in union :: ref.id) else None,
         set entry | entry in choices :: choices[entry])
  }

  /** Only files that the cleanup names are gone; some of them may have stayed (a busy lock, a failed removal). */
  ghost predicate IsCleanup(files: Files, keep: Keep, gone: set<File>) {
    forall file :: file in gone ==> file.name in RemovedNames(file.folder, NamesOf(files, file.folder), keep)
  }

  lemma RemovedNamesAre(folder: Folder, names: seq<string>, keep: Keep, name: string)
    ensures name in RemovedNames(folder, names, keep) <==> name in names && IsRemoved(folder, names, keep, name)
  {
    SortMembers(TextBefore, Filter(n => IsRemoved(folder, names, keep, n), names));
    hide IsRemoved, StableSort;
  }

  lemma BestIsKept(ref: Ref, union: seq<Ref>, files: Files, folders: seq<Folder>, choices: Choices, readable: bool, gone: set<File>)
    requires ref in union && IsCleanup(files, KeepFor(union, readable, choices), gone)
    requires Best(ref, Scan(files, folders)).Some?
    ensures Best(ref, Scan(files, folders)).value !in gone
  {
    var best := Best(ref, Scan(files, folders)).value;
    var names, keep := NamesOf(files, best.folder), KeepFor(union, readable, choices);
    BestInItsFolder(ref, files, folders);
    RemovedNamesAre(best.folder, names, keep, best.name);
    hide ParseCached, Best, RemovedNames, Scan;
    assert ref.pin == None ==> ref == Ref(ref.id, None);
    assert !IsRemoved(best.folder, names, keep, best.name);
  }

  lemma ChoiceIsKept(ref: Ref, union: seq<Ref>, files: Files, folders: seq<Folder>, choices: Choices, readable: bool, gone: set<File>)
    requires ref in union && IsCleanup(files, KeepFor(union, readable, choices), gone)
    ensures IsChoice(ref, Without(files, gone), folders, choices) == IsChoice(ref, files, folders, choices)
  {
    if IsChoice(ref, files, folders, choices) {
      var choice := choices[ref.id];
      var names, keep := NamesOf(files, choice.folder), KeepFor(union, readable, choices);
      RemovedNamesAre(choice.folder, names, keep, choice.name);
      hide ParseCached, Best, RemovedNames;
      assert !IsRemoved(choice.folder, names, keep, choice.name);
    }
    hide ParseCached;
  }

  /** The cleanup of one process never takes what the seeding of another would use: for every list that the union of the
      recorded lists contains, an open seeds the same files before the cleanup and after any part of it. */
  lemma {:induction false} CleanupKeepsSeeds(list: seq<Ref>, union: seq<Ref>, files: Files, platform: Option<Folder>, choices: Choices,
                                             readable: bool, gone: set<File>)
    requires forall ref :: ref in list ==> ref in union
    requires IsCleanup(files, KeepFor(union, readable, choices), gone)
    ensures Seeds(list, Without(files, gone), FoldersFor(platform), choices) == Seeds(list, files, FoldersFor(platform), choices)
  {
    if list != [] {
      CleanupKeepsSeeds(list[..|list| - 1], union, files, platform, choices, readable, gone);
      CleanupKeepsSeed(list[|list| - 1], union, files, FoldersFor(platform), choices, readable, gone);
      hide SeedOf, IsCleanup, Without, FoldersFor;
    }
  }

  lemma CleanupKeepsSeed(ref: Ref, union: seq<Ref>, files: Files, folders: seq<Folder>, choices: Choices, readable: bool, gone: set<File>)
    requires ref in union && IsCleanup(files, KeepFor(union, readable, choices), gone)
    ensures SeedOf(ref, Without(files, gone), folders, choices) == SeedOf(ref, files, folders, choices)
  {
    ChoiceIsKept(ref, union, files, folders, choices, readable, gone);
    if Best(ref, Scan(files, folders)).Some? { BestIsKept(ref, union, files, folders, choices, readable, gone); }
    ScanWithout(files, gone, folders);
    BestSurvives(ref, Scan(files, folders), file => file !in gone);
    hide IsChoice, Best, Scan, Without;
  }

  /** What the cleanup names of an ID that a list names is never the newest version of its folder, never pinned and never
      chosen; and an ID that no list names loses all its files, its newest too. */
  lemma CleanupRemovesExactly(folder: Folder, names: seq<string>, keep: Keep, name: string, cached: Cached)
    requires name in names && ParseCached(name, folder) == Some(cached)
    ensures keep.named.Some? && cached.id !in keep.named.value ==> name in RemovedNames(folder, names, keep)
    ensures (keep.named.None? || cached.id in keep.named.value) ==>
              (name in RemovedNames(folder, names, keep) <==>
               && File(folder, name) !in keep.chosen && cached !in keep.pinned
               && exists other :: other in names && IsFor(Ref(cached.id, None), File(folder, other))
                                  && VersionOf(File(folder, other)) == NewestVersion(folder, names, cached.id) != cached.version
                                  && !Newer(cached.version, VersionOf(File(folder, other))))
  {
    RemovedNamesAre(folder, names, keep, name);
    var ref, scan := Ref(cached.id, None), InFolder(folder, names);
    assert File(folder, name) in scan;
    BestIsThere(ref, scan, File(folder, name));
    var best := Best(ref, scan).value;
    assert best.name in names && best == File(folder, best.name);
    hide ParseCached, Best, InFolder, RemovedNames;
  }

  // ---- What is seeded ----

  /** The file is in the folder of the container's platform, or in that of the files without one. */
  predicate IsStored(files: Files, platform: Option<Folder>, file: File) {
    (file.folder == Universal || platform == Some(file.folder)) && file.folder in files && file.name in files[file.folder]
  }

  /** The name is one of the extension, in the pinned version when the entry has one. */
  ghost predicate IsNamedFor(ref: Ref, file: File, version: string) {
    Matches(file.name, ref.id, version, file.folder) && (ref.pin.Some? ==> version == ref.pin.value)
  }

  lemma NamedForMeans(ref: Ref, file: File)
    ensures IsFor(ref, file) <==> exists version :: IsNamedFor(ref, file, version)
    ensures forall version :: IsNamedFor(ref, file, version) ==> VersionOf(file) == version
  {
    hide ParseCached, Matches;
    if IsFor(ref, file) {
      ParseIsMatch(file.name, file.folder, ref.id, VersionOf(file));
      assert IsNamedFor(ref, file, VersionOf(file));
    }
    forall version | IsNamedFor(ref, file, version)
      ensures VersionOf(file) == version && IsFor(ref, file)
    {
      ParseIsMatch(file.name, file.folder, ref.id, version);
    }
  }

  lemma ScanHas(files: Files, platform: Option<Folder>, file: File)
    ensures file in Scan(files, FoldersFor(platform)) <==> IsStored(files, platform, file)
  {
    var folders := FoldersFor(platform);
    assert Scan(files, []) == [];
    if platform.Some? {
      assert folders[..1] == [platform.value] && folders[..1][..0] == [];
      assert Scan(files, folders) == Scan(files, folders[..1]) + InFolder(Universal, NamesOf(files, Universal));
    } else {
      assert folders[..0] == [];
    }
    hide InFolder;
  }

  /** An entry without a pin is seeded with the file that a run of the monitor chose, as long as that one is stored. */
  lemma ChoiceComesFirst(ref: Ref, files: Files, platform: Option<Folder>, choices: Choices, version: string)
    requires ref.pin == None && ref.id in choices
    requires IsStored(files, platform, choices[ref.id]) && IsNamedFor(ref, choices[ref.id], version)
    ensures SeedOf(ref, files, FoldersFor(platform), choices) == Some(choices[ref.id])
  {
    NamedForMeans(ref, choices[ref.id]);
    hide ParseCached, Matches;
  }

  /** Without a stored choice an entry is seeded if and only if a stored file is one of it: with such a file, and no other stored one
      is of a newer version. */
  lemma SeedMeans(ref: Ref, files: Files, platform: Option<Folder>, choices: Choices)
    requires ref.pin == None && ref.id in choices ==>
               !IsStored(files, platform, choices[ref.id]) || forall version :: !IsNamedFor(ref, choices[ref.id], version)
    ensures var seed := SeedOf(ref, files, FoldersFor(platform), choices);
            && (seed.Some? <==> exists file, version :: IsStored(files, platform, file) && IsNamedFor(ref, file, version))
            && (seed.Some? ==> IsStored(files, platform, seed.value) && exists version :: IsNamedFor(ref, seed.value, version))
            && forall file, version, seeded ::
                 seed.Some? && IsStored(files, platform, file) && IsNamedFor(ref, file, version) && IsNamedFor(ref, seed.value, seeded) ==>
                   !Newer(version, seeded)
  {
    var folders := FoldersFor(platform);
    var scan := Scan(files, folders);
    NoChoice(ref, files, platform, choices);
    hide IsNamedFor, IsStored, IsFor, Scan, VersionOf, IsChoice, Best, Newer, FoldersFor;
    if Best(ref, scan).Some? {
      ScanHas(files, platform, Best(ref, scan).value);
      NamedForMeans(ref, Best(ref, scan).value);
    }
    forall file, version | IsStored(files, platform, file) && IsNamedFor(ref, file, version)
      ensures Best(ref, scan).Some? && !Newer(version, VersionOf(Best(ref, scan).value))
    {
      NamedForMeans(ref, file);
      ScanHas(files, platform, file);
      BestIsThere(ref, scan, file);
    }
  }

  lemma NoChoice(ref: Ref, files: Files, platform: Option<Folder>, choices: Choices)
    requires ref.pin == None && ref.id in choices ==>
               !IsStored(files, platform, choices[ref.id]) || forall version :: !IsNamedFor(ref, choices[ref.id], version)
    ensures SeedOf(ref, files, FoldersFor(platform), choices) == Best(ref, Scan(files, FoldersFor(platform)))
  {
    if ref.pin == None && ref.id in choices { NamedForMeans(ref, choices[ref.id]); }
    hide ParseCached, Matches, Best, Scan;
  }

  function SeedIn(files: Files, folders: seq<Folder>, choices: Choices): Ref -> seq<File> {
    (ref: Ref) => if SeedOf(ref, files, folders, choices).Some? then [SeedOf(ref, files, folders, choices).value] else []
  }

  /** An open seeds one file for each entry that has one, in the order of the entries. */
  lemma {:induction false} OneSeedEach(wanted: seq<Ref>, files: Files, folders: seq<Folder>, choices: Choices)
    ensures Seeds(wanted, files, folders, choices) == Flatten(Map(SeedIn(files, folders, choices), wanted))
  {
    hide SeedOf;
    if wanted != [] {
      var init, last := wanted[..|wanted| - 1], wanted[|wanted| - 1];
      OneSeedEach(init, files, folders, choices);
      assert wanted == init + [last];
      MapSnoc(SeedIn(files, folders, choices), init, last);
      var each := Map(SeedIn(files, folders, choices), init);
      assert (each + [SeedIn(files, folders, choices)(last)])[..|each|] == each;
    }
  }

  // ---- The order of the names ----

  /** At the first difference the smaller character comes first, and a text before those that go on from it. */
  lemma {:induction false} TextOrder(start: string, x: char, y: char, a: string, b: string)
    requires x < y
    ensures TextBefore(start + [x] + a, start + [y] + b) && !TextBefore(start + [y] + b, start + [x] + a)
    ensures TextBefore(start, start + [x] + a) && !TextBefore(start + [x] + a, start)
  {
    var s, t := start + [x] + a, start + [y] + b;
    if start == "" {
      assert s[0] == x && t[0] == y;
    } else {
      TextOrder(start[1..], x, y, a, b);
      assert s[1..] == start[1..] + [x] + a && t[1..] == start[1..] + [y] + b;
    }
  }

  lemma {:induction false} TextSteps(a: string, b: string, c: string)
    ensures TextBefore(a, b) ==> !TextBefore(b, a)
    ensures TextBefore(a, c) ==> TextBefore(a, b) || TextBefore(b, c)
  {
    if b != "" && (a != "" || c != "") {
      TextSteps(if a == "" then "" else a[1..], b[1..], if c == "" then "" else c[1..]);
    }
  }

  /** The names that are removed come in the order of their characters. */
  lemma RemovedInOrder(folder: Folder, names: seq<string>, keep: Keep, j: nat, k: nat)
    requires j < k < |RemovedNames(folder, names, keep)|
    ensures !TextBefore(RemovedNames(folder, names, keep)[k], RemovedNames(folder, names, keep)[j])
  {
    assert StrictWeakOrder(TextBefore) by {
      forall a, b, c
        ensures (TextBefore(a, b) ==> !TextBefore(b, a)) && (TextBefore(a, c) ==> TextBefore(a, b) || TextBefore(b, c))
      {
        TextSteps(a, b, c);
      }
    }
    SortSorted(TextBefore, Filter(name => IsRemoved(folder, names, keep, name), names));
  }
}
