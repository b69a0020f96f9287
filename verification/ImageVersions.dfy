/** The versions of the images of a repository, newest first (src/remoteMonitor/images.ts). */
module ImageVersions {
  import opened Numerals
  import opened Seqs
  import opened Sorting

  /** A version tag as numbers: `2.0.14` is [2, 0, 14]. */
  type Version = seq<nat>

  // ---- The order of versions: a missing part is above every number ----

  /** Negative: `a` is lower. */
  function Compare(a: Version, b: Version): int {
    if a == [] && b == [] then 0
    else if a == [] then 1
    else if b == [] then -1
    else if a[0] != b[0] then if a[0] < b[0] then -1 else 1
    else Compare(a[1..], b[1..])
  }

  method CompareVersions(a: Version, b: Version) returns (r: int)
    ensures r == Compare(a, b)
  {
    var most := if |a| >= |b| then |a| else |b|;
    for index := 0 to most
      invariant index <= |a| && index <= |b|
      invariant Compare(a, b) == Compare(a[index..], b[index..])
    {
      CompareStep(a, b, index);
      if index == |a| { return 1; }
      if index == |b| { return -1; }
      if a[index] != b[index] { return if a[index] < b[index] then -1 else 1; }
    }
    return 0;
  }

  lemma CompareStep(a: Version, b: Version, index: nat)
    requires index <= |a| && index <= |b| && (index < |a| || index < |b|)
    ensures Compare(a[index..], b[index..]) ==
              if index == |a| then 1 else if index == |b| then -1
              else if a[index] != b[index] then if a[index] < b[index] then -1 else 1
              else Compare(a[index + 1..], b[index + 1..])
  {
    if index < |a| { assert a[index..][1..] == a[index + 1..]; }
    if index < |b| { assert b[index..][1..] == b[index + 1..]; }
  }

  /** A total order: only the same versions are equal, the two sides of a comparison are opposite, and it is transitive. */
  lemma {:induction false} VersionOrder(a: Version, b: Version, c: Version)
    ensures Compare(a, b) == 0 <==> a == b
    ensures Compare(b, a) == -Compare(a, b)
    ensures Compare(a, b) < 0 && Compare(b, c) <= 0 ==> Compare(a, c) < 0
    ensures Compare(a, b) <= 0 && Compare(b, c) < 0 ==> Compare(a, c) < 0
  {
    if a != [] && b != [] {
      VersionOrder(a[1..], b[1..], if c == [] then [] else c[1..]);
      assert a[0] == b[0] && a[1..] == b[1..] ==> a == b;
      assert a == [a[0]] + a[1..] && b == [b[0]] + b[1..];
    }
  }

  /** A shorter version stands for the newest image of its line: it is above every version that goes on from it. */
  lemma {:induction false} ShorterIsNewer(line: Version, more: Version)
    requires more != []
    ensures Compare(line + more, line) < 0
  {
    if line == [] {
      assert line + more == more;
    } else {
      assert (line + more)[1..] == line[1..] + more;
      ShorterIsNewer(line[1..], more);
    }
  }

  /** At the first difference the greater number is the higher version. */
  lemma {:induction false} GreaterIsHigher(line: Version, x: nat, y: nat, a: Version, b: Version)
    requires x > y
    ensures Compare(line + [x] + a, line + [y] + b) > 0
  {
    if line == [] {
      assert ([] + [x] + a)[0] == x && ([] + [y] + b)[0] == y;
    } else {
      assert (line + [x] + a)[1..] == line[1..] + [x] + a && (line + [y] + b)[1..] == line[1..] + [y] + b;
      GreaterIsHigher(line[1..], x, y, a, b);
    }
  }

  // ---- The versions of a repository ----

  const NO_TAG: string := "<none>"

  /** A row of the list of the images of one repository; `created`: its time of creation. */
  datatype LocalImage = LocalImage(tag: string, id: string, created: int)

  datatype ImageVersion = ImageVersion(id: string, tags: seq<string>, created: int, version: Option<Version>)

  predicate IsNumber(s: string) { 1 <= |s| <= 6 && forall c :: c in s ==> IsDigit(c) }

  /** The numbers of a version tag (one to four); none for any other tag. */
  function VersionOf(tag: string): Option<Version> {
    if |Split(tag)| <= 4 && forall part :: part in Split(tag) ==> IsNumber(part) then Some(Map(Value, Split(tag))) else None
  }

  /** A tag of numbers with dots between them is a version, when it has at most four of at most six digits each; it is these numbers. */
  lemma VersionOfNumbers(v: Version)
    requires v != []
    ensures VersionOf(Dotted(v)) == if |v| <= 4 && forall n :: n in v ==> n < 1_000_000 then Some(v) else None
  {
    hide *;
    SplitDotted(v);
    var parts := Split(Dotted(v));
    forall k | 0 <= k < |v|
      ensures IsNumber(parts[k]) <==> v[k] < 1_000_000
    {
      SixDigits(v[k]);
    }
    NumbersMean(Dotted(v), v);
  }

  lemma NumbersMean(tag: string, v: Version)
    requires |Split(tag)| == |v|
    requires forall k :: 0 <= k < |v| ==> Value(Split(tag)[k]) == v[k] && (IsNumber(Split(tag)[k]) <==> v[k] < 1_000_000)
    ensures VersionOf(tag) == if |v| <= 4 && forall n :: n in v ==> n < 1_000_000 then Some(v) else None
  {
    hide Split, Value, IsNumber;
    var parts := Split(tag);
    assert forall k :: 0 <= k < |v| ==> parts[k] in parts && v[k] in v;
    assert (forall part :: part in parts ==> IsNumber(part)) <==> forall n :: n in v ==> n < 1_000_000;
    assert Map(Value, parts) == v;
  }

  lemma SixDigits(n: nat)
    ensures IsNumber(Numeral(n)) <==> n < 1_000_000
  {
    ValueOfNumeral(n);
    NumeralLength(n, 6);
    assert PowerOfTen(2) == 100 && PowerOfTen(4) == 10_000 && PowerOfTen(6) == 1_000_000;
  }

  function IdOf(image: LocalImage): string { image.id }

  /** An image of the repository with one row more. */
  function WithRow(known: Option<ImageVersion>, image: LocalImage): ImageVersion {
    var entry := if known.Some? then known.value else ImageVersion(image.id, [], image.created, None);
    var tagged := if image.tag != NO_TAG && image.tag !in entry.tags then entry.(tags := entry.tags + [image.tag]) else entry;
    var version := VersionOf(image.tag);
    if version.Some? && (tagged.version == None || Compare(version.value, tagged.version.value) > 0)
    then tagged.(version := version) else tagged
  }

  function Entry(images: seq<LocalImage>, id: string): Option<ImageVersion> {
    if images == [] then None
    else
      var before, image := Entry(images[..|images| - 1], id), images[|images| - 1];
      if image.id == id then Some(WithRow(before, image)) else before
  }

  function EntryOf(images: seq<LocalImage>, id: string): ImageVersion {
    var entry := Entry(images, id);
    if entry.Some? then entry.value else ImageVersion(id, [], 0, None)
  }

  /** One entry for each ID, in the order in which the rows show them first. */
  function Entries(images: seq<LocalImage>): seq<ImageVersion> {
    Map(id => EntryOf(images, id), Distinct(Map(IdOf, images)))
  }

  /** `a` comes before `b`: with a version before one without, else the higher version, else the later creation. */
  predicate IsNewer(a: ImageVersion, b: ImageVersion) {
    if a.version.Some? && b.version.Some? && Compare(b.version.value, a.version.value) != 0
    then Compare(b.version.value, a.version.value) < 0
    else if a.version.Some? != b.version.Some? then a.version.Some?
    else b.created < a.created
  }

  /** What the order of the entries says: a version before none, of two versions the higher one, else the later creation. */
  lemma NewerMeans(a: ImageVersion, b: ImageVersion)
    ensures a.version.Some? && b.version.None? ==> IsNewer(a, b) && !IsNewer(b, a)
    ensures a.version.Some? && b.version.Some? && Compare(a.version.value, b.version.value) > 0 ==> IsNewer(a, b) && !IsNewer(b, a)
    ensures a.version == b.version ==> (IsNewer(a, b) <==> a.created > b.created)
  {
    hide Compare;
    if a.version.Some? && b.version.Some? { VersionOrder(a.version.value, b.version.value, a.version.value); }
  }

  /** The versions of a repository, newest first. */
  function Versions(images: seq<LocalImage>): seq<ImageVersion> { StableSort(IsNewer, Entries(images)) }

  method VersionsOf(images: seq<LocalImage>) returns (versions: seq<ImageVersion>)
    ensures versions == Versions(images)
  {
    var byId: map<string, ImageVersion> := map[];
    var order: seq<string> := [];
    hide WithRow, Entry, Entries;
    NoRows();
    for i := 0 to |images|
      invariant IsIndex(byId, order, images[..i])
    {
      hide IsIndex;
      var image := images[i];
      assert images[..i + 1] == images[..i] + [image];
      IndexStep(byId, order, images[..i], image);
      var known := if image.id in byId then Some(byId[image.id]) else None;
      if known == None { order := order + [image.id]; }
      var entry := AddRow(known, image);
      byId := byId[image.id := entry];
    }
    assert images[..|images|] == images;
    IndexOfAll(byId, order, images);
    versions := StableSort(IsNewer, ValuesOf(byId, order));
  }

  /** The map of the loop and the order of its keys, after some rows. */
  ghost predicate IsIndex(byId: map<string, ImageVersion>, order: seq<string>, images: seq<LocalImage>) {
    && order == Distinct(Map(IdOf, images))
    && (forall id :: id in order ==> id in byId)
    && forall id: string :: Entry(images, id) == if id in byId then Some(byId[id]) else None
  }

  lemma NoRows()
    ensures IsIndex(map[], [], [])
  {
  }

  lemma IndexStep(byId: map<string, ImageVersion>, order: seq<string>, images: seq<LocalImage>, image: LocalImage)
    requires IsIndex(byId, order, images)
    ensures var known := if image.id in byId then Some(byId[image.id]) else None;
            IsIndex(byId[image.id := WithRow(known, image)], if known == None then order + [image.id] else order, images + [image])
  {
    EntryMeans(images, image.id);
    MapSnoc(IdOf, images, image);
    DistinctSnoc(Map(IdOf, images), image.id);
    HasRow(images, image.id);
    hide WithRow, Distinct;
    forall id: string
      ensures Entry(images + [image], id) ==
                if id == image.id then Some(WithRow(Entry(images, id), image)) else Entry(images, id)
    {
      assert (images + [image])[..|images|] == images;
    }
    hide Entry;
  }

  lemma HasRow(images: seq<LocalImage>, id: string)
    ensures id in Distinct(Map(IdOf, images)) <==> exists image :: IsRowOf(images, id, image)
  {
    if exists image :: IsRowOf(images, id, image) {
      var image :| IsRowOf(images, id, image);
      var k :| 0 <= k < |images| && images[k] == image;
      assert Map(IdOf, images)[k] == id;
    }
    if id in Map(IdOf, images) {
      var k :| 0 <= k < |images| && Map(IdOf, images)[k] == id;
      assert IsRowOf(images, id, images[k]);
    }
  }

  /** `[...byId.values()]` */
  function ValuesOf(byId: map<string, ImageVersion>, order: seq<string>): seq<ImageVersion>
    requires forall id :: id in order ==> id in byId
  {
    seq(|order|, k requires 0 <= k < |order| => byId[order[k]])
  }

  lemma IndexOfAll(byId: map<string, ImageVersion>, order: seq<string>, images: seq<LocalImage>)
    requires IsIndex(byId, order, images)
    ensures ValuesOf(byId, order) == Entries(images)
  {
    assert forall id :: id in order ==> Entry(images, id) == Some(byId[id]);
    hide Entry, Distinct;
    assert forall k :: 0 <= k < |order| ==> order[k] in order;
  }

  method AddRow(known: Option<ImageVersion>, image: LocalImage) returns (entry: ImageVersion)
    ensures entry == WithRow(known, image)
  {
    hide VersionOf, Compare;
    entry := if known.Some? then known.value else ImageVersion(image.id, [], image.created, None);
    if image.tag != NO_TAG && image.tag !in entry.tags { entry := entry.(tags := entry.tags + [image.tag]); }
    var version := VersionOf(image.tag);
    if version == None { return; }
    if entry.version == None { return entry.(version := version); }
    var difference := CompareVersions(version.value, entry.version.value);
    if difference > 0 { entry := entry.(version := version); }
  }

  // ---- What the entries are ----

  predicate IsRowOf(images: seq<LocalImage>, id: string, image: LocalImage) { image in images && image.id == id }

  /** The tags of an entry are those of its rows. */
  ghost predicate TagsAre(images: seq<LocalImage>, entry: ImageVersion) {
    forall tag :: tag in entry.tags <==> tag != "<none>" && exists image :: IsRowOf(images, entry.id, image) && image.tag == tag
  }

  /** The version of an entry is the highest of its rows. */
  ghost predicate IsHighest(images: seq<LocalImage>, entry: ImageVersion) {
    && (entry.version.Some? ==> exists image :: IsRowOf(images, entry.id, image) && VersionOf(image.tag) == entry.version)
    && forall image :: IsRowOf(images, entry.id, image) && VersionOf(image.tag).Some? ==>
         entry.version.Some? && Compare(VersionOf(image.tag).value, entry.version.value) <= 0
  }

  /** An ID with a row has an entry, with every tag of the ID and the highest of their versions. */
  lemma {:induction false} EntryMeans(images: seq<LocalImage>, id: string)
    ensures Entry(images, id).Some? <==> exists image :: IsRowOf(images, id, image)
    ensures Entry(images, id).Some? ==>
              var entry := Entry(images, id).value;
              entry.id == id && TagsAre(images, entry) && IsHighest(images, entry)
  {
    hide VersionOf, Compare, WithRow, TagsAre, IsHighest;
    if images != [] {
      var init, last := images[..|images| - 1], images[|images| - 1];
      assert images == init + [last];
      EntryMeans(init, id);
      if last.id == id {
        assert IsRowOf(images, id, last);
        EntryStep(init, last, Entry(init, id));
      } else {
        assert forall image :: IsRowOf(images, id, image) <==> IsRowOf(init, id, image);
        if Entry(init, id).Some? { SameRows(init, images, Entry(init, id).value); }
      }
    }
  }

  lemma SameRows(a: seq<LocalImage>, b: seq<LocalImage>, entry: ImageVersion)
    requires forall image :: IsRowOf(b, entry.id, image) <==> IsRowOf(a, entry.id, image)
    requires TagsAre(a, entry) && IsHighest(a, entry)
    ensures TagsAre(b, entry) && IsHighest(b, entry)
  {
    hide IsRowOf, VersionOf, Compare;
  }

  lemma EntryStep(init: seq<LocalImage>, last: LocalImage, known: Option<ImageVersion>)
    requires known == None ==> forall image :: !IsRowOf(init, last.id, image)
    requires known.Some? ==> known.value.id == last.id && TagsAre(init, known.value) && IsHighest(init, known.value)
    ensures var entry := WithRow(known, last);
            entry.id == last.id && TagsAre(init + [last], entry) && IsHighest(init + [last], entry)
  {
    var entry := WithRow(known, last);
    forall image
      ensures IsRowOf(init + [last], last.id, image) <==> IsRowOf(init, last.id, image) || image == last
    {
    }
    HighestStep(init, last, known);
    hide VersionOf, Compare, IsHighest, IsRowOf;
    assert IsRowOf(init + [last], last.id, last);
  }

  lemma HighestStep(init: seq<LocalImage>, last: LocalImage, known: Option<ImageVersion>)
    requires known == None ==> forall image :: !IsRowOf(init, last.id, image)
    requires known.Some? ==> known.value.id == last.id && IsHighest(init, known.value)
    requires forall image :: IsRowOf(init + [last], last.id, image) <==> IsRowOf(init, last.id, image) || image == last
    ensures IsHighest(init + [last], WithRow(known, last))
  {
    var entry, all := WithRow(known, last), init + [last];
    assert IsRowOf(all, last.id, last);
    hide VersionOf, IsRowOf, Compare;
    forall image | IsRowOf(all, last.id, image) && VersionOf(image.tag).Some?
      ensures entry.version.Some? && Compare(VersionOf(image.tag).value, entry.version.value) <= 0
    {
      var v := VersionOf(image.tag).value;
      if image == last {
        VersionOrder(v, v, v);
        if known.Some? && known.value.version.Some? { VersionOrder(v, known.value.version.value, v); }
      } else if VersionOf(last.tag).Some? {
        VersionOrder(v, known.value.version.value, VersionOf(last.tag).value);
        VersionOrder(known.value.version.value, VersionOf(last.tag).value, v);
      }
    }
  }

  /** The order of the entries is one by which an array can be sorted. */
  lemma NewerIsOrder()
    ensures StrictWeakOrder(IsNewer)
  {
    forall a: ImageVersion, b: ImageVersion, c: ImageVersion
      ensures !(IsNewer(a, b) && IsNewer(b, a))
      ensures IsNewer(a, c) ==> IsNewer(a, b) || IsNewer(b, c)
    {
      NewerSteps(a, b, c);
    }
  }

  lemma NewerSteps(a: ImageVersion, b: ImageVersion, c: ImageVersion)
    ensures !(IsNewer(a, b) && IsNewer(b, a))
    ensures IsNewer(a, c) ==> IsNewer(a, b) || IsNewer(b, c)
  {
    hide Compare;
    var x := if a.version.Some? then a.version.value else [];
    var y := if b.version.Some? then b.version.value else [];
    var z := if c.version.Some? then c.version.value else [];
    VersionOrder(x, y, z);
    VersionOrder(z, y, x);
    VersionOrder(x, z, y);
  }

  function IsOf(id: string): LocalImage -> bool { (image: LocalImage) => image.id == id }

  function TagOf(): LocalImage -> string { (image: LocalImage) => image.tag }

  function IsTag(): string -> bool { (tag: string) => tag != "<none>" }

  /** The tags of an image in the order of its rows, each once. */
  lemma {:induction false} TagsInOrder(images: seq<LocalImage>, id: string)
    ensures Entry(images, id).Some? ==>
              Entry(images, id).value.tags == Distinct(Filter(IsTag(), Map(TagOf(), Filter(IsOf(id), images))))
  {
    if images != [] {
      var init, last := images[..|images| - 1], images[|images| - 1];
      var rows := Filter(IsOf(id), init);
      TagsInOrder(init, id);
      assert images == init + [last];
      if last.id == id {
        if Entry(init, id).None? { NoRowsYet(init, id); }
        TagsOfRow(Entry(init, id), last);
        hide Entry, WithRow, Distinct, Filter;
        FilterSnoc(IsOf(id), init, last);
        MapSnoc(TagOf(), rows, last);
        FilterSnoc(IsTag(), Map(TagOf(), rows), last.tag);
        DistinctSnoc(Filter(IsTag(), Map(TagOf(), rows)), last.tag);
        EntryOfRow(init, last);
      } else {
        hide WithRow, Distinct, Map;
        FilterSnoc(IsOf(id), init, last);
      }
    }
  }

  lemma EntryOfRow(init: seq<LocalImage>, last: LocalImage)
    ensures Entry(init + [last], last.id) == Some(WithRow(Entry(init, last.id), last))
  {
    assert (init + [last])[..|init|] == init;
  }

  lemma TagsOfRow(known: Option<ImageVersion>, image: LocalImage)
    ensures var tags := if known.Some? then known.value.tags else [];
            WithRow(known, image).tags == if image.tag != "<none>" && image.tag !in tags then tags + [image.tag] else tags
  {
    hide Compare, VersionOf;
  }

  lemma NoRowsYet(images: seq<LocalImage>, id: string)
    requires Entry(images, id).None?
    ensures Filter(IsOf(id), images) == []
  {
    EntryMeans(images, id);
    forall image | image in images
      ensures image.id != id
    {
      assert !IsRowOf(images, id, image);
    }
    FilterNone(IsOf(id), images);
  }

  /** The time of creation of an image is that of its first row. */
  lemma {:induction false} CreatedOfFirstRow(images: seq<LocalImage>, id: string, k: nat)
    requires k < |images| && images[k].id == id && forall j :: 0 <= j < k ==> images[j].id != id
    ensures Entry(images, id).Some? && Entry(images, id).value.created == images[k].created
  {
    hide Compare, VersionOf;
    var init := images[..|images| - 1];
    if k < |init| {
      CreatedOfFirstRow(init, id, k);
    } else {
      EntryMeans(init, id);
      assert forall image :: image in init ==> image.id != id;
    }
  }
}
