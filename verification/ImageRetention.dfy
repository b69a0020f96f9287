/** Which images a pass of the maintenance removes, and which IDs it remembers (src/remoteMonitor/images.ts). */
module ImageRetention {
  import opened ImageVersions
  import opened Seqs
  import opened Sorting

  const KEPT_IMAGE_VERSIONS: nat := 2
  const MAX_REPLACED_PER_REPOSITORY: nat := 200

  type Layers = Option<map<string, seq<string>>>

  /** The containers of an image, or a list that failed. */
  datatype Users = Containers(count: nat) | Unknown

  // ---- A pass over all repositories ----

  predicate IsOfLine(v: ImageVersion) { v.version.Some? || v.tags == [] }

  /** The versions of the line that the maintenance pulls, newest first: an ID whose tags are no versions is none of it. */
  function Line(images: seq<LocalImage>): seq<ImageVersion> { Filter(IsOfLine, Versions(images)) }

  method LineOf(images: seq<LocalImage>) returns (line: seq<ImageVersion>)
    ensures line == Line(images)
  {
    var versions := VersionsOf(images);
    line := Filter(IsOfLine, versions);
  }

  /** One of the newest versions of a repository has this ID. */
  predicate IsKept(all: seq<seq<LocalImage>>, id: string) {
    exists r, k :: 0 <= r < |all| && 0 <= k < KEPT_IMAGE_VERSIONS && IsAt(all, r, k, id)
  }

  predicate IsAt(all: seq<seq<LocalImage>>, r: nat, k: nat, id: string) {
    r < |all| && k < |Line(all[r])| && Line(all[r])[k].id == id
  }

  /** Another image starts with the layers of this one and has more. */
  predicate IsBuiltOn(layers: map<string, seq<string>>, id: string) {
    id in layers && exists other :: other in layers && other != id && layers[id] < layers[other]
  }

  predicate MayGo(id: string, layers: Layers, kept: set<string>, users: Users) {
    id !in kept && layers.Some? && id in layers.value && !IsBuiltOn(layers.value, id) && users == Containers(0)
  }

  predicate IsFirst(line: seq<ImageVersion>, id: string) { exists k :: 0 <= k < KEPT_IMAGE_VERSIONS && k < |line| && line[k].id == id }

  predicate IsFirstOfAny(all: seq<seq<LocalImage>>, end: nat, id: string) { exists r :: 0 <= r < end && r < |all| && IsFirst(Line(all[r]), id) }

  method KeptOf(all: seq<seq<LocalImage>>) returns (kept: set<string>)
    ensures forall id :: id in kept <==> IsKept(all, id)
  {
    kept := {};
    hide Line, IsFirst;
    for r := 0 to |all|
      invariant forall id :: id in kept <==> IsFirstOfAny(all, r, id)
    {
      var line := LineOf(all[r]);
      kept := AddFirst(line, kept);
    }
    forall id: string
      ensures IsFirstOfAny(all, |all|, id) <==> IsKept(all, id)
    {
      KeptIsFirst(all, id);
    }
  }

  method AddFirst(line: seq<ImageVersion>, before: set<string>) returns (kept: set<string>)
    ensures forall id :: id in kept <==> id in before || IsFirst(line, id)
  {
    kept := before;
    var end := if |line| < KEPT_IMAGE_VERSIONS then |line| else KEPT_IMAGE_VERSIONS;
    for j := 0 to end
      invariant forall id :: id in kept <==> id in before || exists k :: 0 <= k < j && line[k].id == id
    {
      kept := kept + {line[j].id};
    }
  }

  lemma KeptIsFirst(all: seq<seq<LocalImage>>, id: string)
    ensures IsFirstOfAny(all, |all|, id) <==> IsKept(all, id)
  {
    hide Line;
    if IsFirstOfAny(all, |all|, id) {
      var r :| 0 <= r < |all| && IsFirst(Line(all[r]), id);
      var k :| 0 <= k < KEPT_IMAGE_VERSIONS && k < |Line(all[r])| && Line(all[r])[k].id == id;
      assert IsAt(all, r, k, id);
    }
    if IsKept(all, id) {
      var r, k :| 0 <= r < |all| && 0 <= k < KEPT_IMAGE_VERSIONS && IsAt(all, r, k, id);
      assert IsFirst(Line(all[r]), id);
    }
  }

  /** The IDs of a repository whose removal is attempted; `users`: what the engine answers about the containers of an ID. */
  function Attempts(line: seq<ImageVersion>, layers: Layers, kept: set<string>, users: string -> Users): seq<string> {
    var older := if |line| <= KEPT_IMAGE_VERSIONS then [] else line[KEPT_IMAGE_VERSIONS..];
    Map((v: ImageVersion) => v.id, Filter((v: ImageVersion) => MayGo(v.id, layers, kept, users(v.id)), older))
  }

  method Clean(images: seq<LocalImage>, layers: Layers, kept: set<string>, users: string -> Users) returns (attempted: seq<string>)
    ensures attempted == Attempts(Line(images), layers, kept, users)
  {
    var line := LineOf(images);
    var older := if |line| <= KEPT_IMAGE_VERSIONS then [] else line[KEPT_IMAGE_VERSIONS..];
    ghost var goes := (v: ImageVersion) => MayGo(v.id, layers, kept, users(v.id));
    ghost var idOf := (v: ImageVersion) => v.id;
    attempted := [];
    for i := 0 to |older|
      invariant attempted == Map(idOf, Filter(goes, older[..i]))
    {
      assert older[..i + 1] == older[..i] + [older[i]];
      FilterSnoc(goes, older[..i], older[i]);
      MapSnoc(idOf, Filter(goes, older[..i]), older[i]);
      var id := older[i].id;
      if id in kept { continue; }
      if layers == None || id !in layers.value { continue; }
      if IsBuiltOn(layers.value, id) { continue; }
      var containers := users(id);
      if containers != Containers(0) { continue; }
      attempted := attempted + [id];
    }
    assert older[..|older|] == older;
  }

  /** A pass: first what every repository keeps, then the removals of each. */
  method Pass(all: seq<seq<LocalImage>>, layers: Layers, users: (nat, string) -> Users) returns (attempted: seq<seq<string>>)
    ensures |attempted| == |all|
    ensures forall r: nat, id :: r < |all| ==>
              (id in attempted[r] <==>
                && IsOlder(all[r], id) && !IsKept(all, id) && layers.Some? && id in layers.value && users(r, id) == Containers(0)
                && !exists other :: other in layers.value && other != id && layers.value[id] < layers.value[other])
  {
    var kept := KeptOf(all);
    attempted := [];
    for r := 0 to |all|
      invariant |attempted| == r
      invariant forall q: nat :: q < r ==> attempted[q] == Attempts(Line(all[q]), layers, kept, id => users(q, id))
    {
      var ids := Clean(all[r], layers, kept, id => users(r, id));
      attempted := attempted + [ids];
    }
    forall r: nat, id | r < |all|
      ensures id in attempted[r] <==> IsOlder(all[r], id) && MayGo(id, layers, kept, users(r, id))
    {
      AttemptedIds(all[r], layers, kept, i => users(r, i), id);
    }
  }

  /** A version behind the newest ones of its repository has this ID. */
  predicate IsOlder(images: seq<LocalImage>, id: string) {
    exists k :: KEPT_IMAGE_VERSIONS <= k < |Line(images)| && Line(images)[k].id == id
  }

  lemma AttemptedIds(images: seq<LocalImage>, layers: Layers, kept: set<string>, users: string -> Users, id: string)
    ensures id in Attempts(Line(images), layers, kept, users) <==> IsOlder(images, id) && MayGo(id, layers, kept, users(id))
  {
    var line := Line(images);
    hide Line, MayGo;
    var older := if |line| <= KEPT_IMAGE_VERSIONS then [] else line[KEPT_IMAGE_VERSIONS..];
    var goes := (v: ImageVersion) => MayGo(v.id, layers, kept, users(v.id));
    var found := Filter(goes, older);
    if id in Attempts(line, layers, kept, users) {
      var j :| 0 <= j < |found| && found[j].id == id;
      assert found[j] in older;
      var k :| 0 <= k < |older| && older[k] == found[j];
      assert line[k + KEPT_IMAGE_VERSIONS] == found[j];
    }
    if IsOlder(images, id) && MayGo(id, layers, kept, users(id)) {
      var k :| KEPT_IMAGE_VERSIONS <= k < |line| && line[k].id == id;
      assert older[k - KEPT_IMAGE_VERSIONS] == line[k];
      assert line[k] in found;
      var j :| 0 <= j < |found| && found[j] == line[k];
      assert Attempts(line, layers, kept, users)[j] == id;
    }
  }

  // ---- What a pass keeps ----

  lemma LineSorted(images: seq<LocalImage>)
    ensures Sorted(IsNewer, Line(images))
  {
    NewerIsOrder();
    SortSorted(IsNewer, Entries(images));
    FilterSorted(Versions(images));
  }

  lemma {:induction false} FilterSorted(s: seq<ImageVersion>)
    requires Sorted(IsNewer, s)
    ensures Sorted(IsNewer, Filter(IsOfLine, s))
  {
    hide IsNewer, IsOfLine;
    if s != [] {
      var init, last := s[..|s| - 1], s[|s| - 1];
      FilterSorted(init);
      assert forall v :: v in init ==> !IsNewer(last, v);
      assert forall k :: 0 <= k < |Filter(IsOfLine, init)| ==> Filter(IsOfLine, init)[k] in init;
    }
  }

  /** No two versions of a repository have the same ID. */
  lemma LineIds(images: seq<LocalImage>, j: nat, k: nat)
    requires j < k < |Line(images)|
    ensures Line(images)[j].id != Line(images)[k].id
  {
    var entries := Entries(images);
    EntriesAreDistinct(images);
    SortMultiset(IsNewer, entries);
    SortMembers(IsNewer, entries);
    NoDuplicatesByMultiset(entries, Versions(images));
    FilterNoDuplicates(IsOfLine, Versions(images));
    var line := Line(images);
    assert line[j] in line && line[k] in line;
    assert line[j] in entries && line[k] in entries;
    assert line[j] != line[k];
  }

  lemma EntriesAreDistinct(images: seq<LocalImage>)
    ensures NoDuplicates(Entries(images))
    ensures forall a, b :: a in Entries(images) && b in Entries(images) && a.id == b.id ==> a == b
  {
    var ids := Distinct(Map(IdOf, images));
    forall k | 0 <= k < |ids|
      ensures Entries(images)[k].id == ids[k]
    {
      EntryMeans(images, ids[k]);
    }
    hide EntryOf;
  }

  /** Every version that a pass may remove of a repository leaves it two others with their own IDs, none older than it, that
      no repository removes in the same pass. */
  lemma TwoNewestStay(all: seq<seq<LocalImage>>, r: nat, k: nat)
    requires r < |all| && 2 <= k < |Line(all[r])|
    ensures var line := Line(all[r]);
            && IsOlder(all[r], line[k].id)
            && line[0].id != line[1].id && line[0].id != line[k].id && line[1].id != line[k].id
            && !IsNewer(line[k], line[0]) && !IsNewer(line[k], line[1]) && !IsNewer(line[1], line[0])
            && IsKept(all, line[0].id) && IsKept(all, line[1].id)
  {
    LineSorted(all[r]);
    LineIds(all[r], 0, 1);
    LineIds(all[r], 0, k);
    LineIds(all[r], 1, k);
    var line := Line(all[r]);
    hide Line, IsNewer;
    assert IsAt(all, r, 0, line[0].id) && IsAt(all, r, 1, line[1].id);
  }

  /** An image whose tags are no versions (`latest`) is no version of its repository: a pass never removes it as one. */
  lemma OtherTagsStay(images: seq<LocalImage>, id: string)
    requires IsOlder(images, id)
    ensures exists image :: IsRowOf(images, id, image)
    ensures Entry(images, id).Some? && (Entry(images, id).value.version.Some? || Entry(images, id).value.tags == [])
  {
    var line := Line(images);
    var k :| KEPT_IMAGE_VERSIONS <= k < |line| && line[k].id == id;
    assert line[k] in line;
    SortMembers(IsNewer, Entries(images));
    assert line[k] in Entries(images);
    var ids := Distinct(Map(IdOf, images));
    var j :| 0 <= j < |ids| && Entries(images)[j] == line[k];
    assert ids[j] in Map(IdOf, images);
    HasRow(images, ids[j]);
    EntryMeans(images, ids[j]);
  }

  /** The two newest versions of each repository are kept, and only these. */
  lemma KeptAreTheTwoNewest(all: seq<seq<LocalImage>>, id: string)
    ensures IsKept(all, id) <==> exists r: nat :: IsAt(all, r, 0, id) || IsAt(all, r, 1, id)
  {
    hide IsAt;
    if IsKept(all, id) {
      var r, k :| 0 <= r < |all| && 0 <= k < KEPT_IMAGE_VERSIONS && IsAt(all, r, k, id);
      assert k == 0 || k == 1;
    }
    if r: nat :| IsAt(all, r, 0, id) || IsAt(all, r, 1, id) { AtMeans(all, r, id); }
  }

  lemma AtMeans(all: seq<seq<LocalImage>>, r: nat, id: string)
    ensures IsAt(all, r, 0, id) || IsAt(all, r, 1, id) ==> r < |all|
  {
  }

  /** The line of a repository are its images with a version tag or without any tag. */
  lemma LineIs(images: seq<LocalImage>, v: ImageVersion)
    ensures v in Line(images) <==> v in Entries(images) && (v.version.Some? || v.tags == [])
  {
    SortMembers(IsNewer, Entries(images));
  }

  // ---- The remembered IDs ----

  function CountTagged(ids: seq<string>, tagged: set<string>): nat {
    if ids == [] then 0 else (if ids[0] in tagged then 1 else 0) + CountTagged(ids[1..], tagged)
  }

  /** In one go: without the first `m` tagged IDs and the first `n` untagged ones, in their order. */
  function DropFirst(ids: seq<string>, tagged: set<string>, m: nat, n: nat): seq<string> {
    if ids == [] then []
    else if ids[0] in tagged then
      if m > 0 then DropFirst(ids[1..], tagged, m - 1, n) else [ids[0]] + DropFirst(ids[1..], tagged, m, n)
    else if n > 0 then DropFirst(ids[1..], tagged, m, n - 1) else [ids[0]] + DropFirst(ids[1..], tagged, m, n)
  }

  /** `findIndex((id) => tagged.has(id))`, the length instead of -1. */
  function FirstTagged(ids: seq<string>, tagged: set<string>): (k: nat)
    ensures k <= |ids|
  {
    if ids == [] || ids[0] in tagged then 0 else 1 + FirstTagged(ids[1..], tagged)
  }

  function RemoveAt(ids: seq<string>, k: nat): seq<string>
    requires k < |ids|
  {
    ids[..k] + ids[k + 1..]
  }

  /** The IDs of a repository within the bound: the surplus goes from the oldest tagged IDs, and only when there are too few
      of these from the oldest untagged ones too. */
  method TrimReplaced(ids: seq<string>, tagged: set<string>) returns (result: seq<string>)
    ensures |result| == if |ids| <= 200 then |ids| else 200
    ensures var surplus := |ids| - |result|;
            var m := if CountTagged(ids, tagged) < surplus then CountTagged(ids, tagged) else surplus;
            result == DropFirst(ids, tagged, m, |ids| - |result| - m)
  {
    result := ids;
    DropNothing(ids, tagged);
    ghost var m, n := 0, 0;
    while |result| > MAX_REPLACED_PER_REPOSITORY
      invariant result == DropFirst(ids, tagged, m, n)
      invariant m <= CountTagged(ids, tagged) && n <= |ids| - CountTagged(ids, tagged)
      invariant |result| == |ids| - m - n && (n > 0 ==> m == CountTagged(ids, tagged))
      invariant |result| >= MAX_REPLACED_PER_REPOSITORY || m + n == 0
      decreases |result|
    {
      hide DropFirst, CountTagged, FirstTagged;
      DropOneMore(ids, tagged, m, n);
      var index := FirstTagged(result, tagged);
      if index < |result| {
        result := RemoveAt(result, index);
        m := m + 1;
      } else {
        result := RemoveAt(result, 0);
        n := n + 1;
      }
    }
    DropLength(ids, tagged, m, n);
  }

  lemma {:induction false} DropNothing(ids: seq<string>, tagged: set<string>)
    ensures DropFirst(ids, tagged, 0, 0) == ids && CountTagged(ids, tagged) <= |ids|
  {
    if ids != [] { DropNothing(ids[1..], tagged); }
  }

  lemma {:induction false} DropLength(ids: seq<string>, tagged: set<string>, m: nat, n: nat)
    requires m <= CountTagged(ids, tagged) && n <= |ids| - CountTagged(ids, tagged)
    ensures |DropFirst(ids, tagged, m, n)| == |ids| - m - n
  {
    DropNothing(ids, tagged);
    if ids != [] {
      DropNothing(ids[1..], tagged);
      if ids[0] in tagged {
        if m > 0 {
          DropLength(ids[1..], tagged, m - 1, n);
        } else {
          DropLength(ids[1..], tagged, m, n);
        }
      } else if n > 0 {
        DropLength(ids[1..], tagged, m, n - 1);
      } else {
        DropLength(ids[1..], tagged, m, n);
      }
    }
  }

  /** One ID less at the place that the loop takes is one more dropped of its kind. */
  lemma {:induction false} DropOneMore(ids: seq<string>, tagged: set<string>, m: nat, n: nat)
    requires m <= CountTagged(ids, tagged) && n <= |ids| - CountTagged(ids, tagged)
    ensures var now := DropFirst(ids, tagged, m, n);
            && (FirstTagged(now, tagged) < |now| <==> m < CountTagged(ids, tagged))
            && (m < CountTagged(ids, tagged) ==> RemoveAt(now, FirstTagged(now, tagged)) == DropFirst(ids, tagged, m + 1, n))
            && (m == CountTagged(ids, tagged) && n < |ids| - m ==> now != [] && now[1..] == DropFirst(ids, tagged, m, n + 1))
  {
    if ids != [] {
      var head, tail := ids[0], ids[1..];
      DropNothing(tail, tagged);
      if head in tagged && m > 0 {
        DropOneMore(tail, tagged, m - 1, n);
      } else if head !in tagged && n > 0 {
        DropOneMore(tail, tagged, m, n - 1);
      } else {
        if head !in tagged { DropOneMore(tail, tagged, m, n); }
        var rest := DropFirst(tail, tagged, m, n);
        assert DropFirst(ids, tagged, m, n) == [head] + rest;
        InFront(head, rest, tagged);
      }
    }
  }

  lemma InFront(head: string, rest: seq<string>, tagged: set<string>)
    ensures var now := [head] + rest;
            && now[1..] == rest
            && FirstTagged(now, tagged) == (if head in tagged then 0 else 1 + FirstTagged(rest, tagged))
            && RemoveAt(now, 0) == rest
            && (head !in tagged && FirstTagged(rest, tagged) < |rest| ==>
                  RemoveAt(now, FirstTagged(now, tagged)) == [head] + RemoveAt(rest, FirstTagged(rest, tagged)))
  {
    var now := [head] + rest;
    assert now[0] == head && now[1..] == rest;
    assert FirstTagged(now, tagged) == if head in tagged then 0 else 1 + FirstTagged(rest, tagged);
    hide FirstTagged;
    if head !in tagged && FirstTagged(rest, tagged) < |rest| {
      var k := FirstTagged(rest, tagged);
      assert now[..k + 1] == [head] + rest[..k] && now[k + 2..] == rest[k + 1..];
    }
  }

  function IsTagged(tagged: set<string>, yes: bool): string -> bool { (id: string) => (id in tagged) == yes }

  /** What the trim leaves of the tagged and of the other IDs: all but the first ones, in their order. */
  lemma {:induction false} DropMeans(ids: seq<string>, tagged: set<string>, m: nat, n: nat, yes: bool)
    requires m <= CountTagged(ids, tagged) && n <= |ids| - CountTagged(ids, tagged)
    ensures |Filter(IsTagged(tagged, yes), ids)| == if yes then CountTagged(ids, tagged) else |ids| - CountTagged(ids, tagged)
    ensures Filter(IsTagged(tagged, yes), DropFirst(ids, tagged, m, n)) == Filter(IsTagged(tagged, yes), ids)[(if yes then m else n)..]
    decreases |ids|, 0
  {
    if ids != [] {
      var head, tail := ids[0], ids[1..];
      hide *;
      DropStep(ids, tagged, m, n);
      KindOfHead(head, tail, tagged, yes);
      assert [head] + tail == ids;
      if head in tagged && m > 0 {
        DropKind(head, tail, tagged, m - 1, n, yes, true);
      } else if head !in tagged && n > 0 {
        DropKind(head, tail, tagged, m, n - 1, yes, true);
      } else {
        DropKind(head, tail, tagged, m, n, yes, false);
      }
    } else {
      assert Filter(IsTagged(tagged, yes), ids)[0..] == [];
    }
  }

  lemma {:induction false} DropKind(head: string, tail: seq<string>, tagged: set<string>, m: nat, n: nat, yes: bool, dropped: bool)
    requires m <= CountTagged(tail, tagged) && n <= |tail| - CountTagged(tail, tagged)
    requires (head in tagged) == yes && !dropped ==> (if yes then m else n) == 0
    ensures |Filter(IsTagged(tagged, yes), tail)| == if yes then CountTagged(tail, tagged) else |tail| - CountTagged(tail, tagged)
    ensures var rest, k := DropFirst(tail, tagged, m, n), if yes then m else n;
            var first := if (head in tagged) == yes then [head] else [];
            Filter(IsTagged(tagged, yes), if dropped then rest else [head] + rest) ==
              (first + Filter(IsTagged(tagged, yes), tail))[(if (head in tagged) == yes && dropped then k + 1 else k)..]
    decreases |tail|, 1
  {
    var rest := DropFirst(tail, tagged, m, n);
    hide *;
    DropMeans(tail, tagged, m, n, yes);
    KindOfHead(head, rest, tagged, yes);
    BehindFirst(head, Filter(IsTagged(tagged, yes), tail), Filter(IsTagged(tagged, yes), rest), if yes then m else n, (head in tagged) == yes, dropped);
  }

  lemma BehindFirst(head: string, all: seq<string>, left: seq<string>, k: nat, ofKind: bool, dropped: bool)
    requires k <= |all| && left == all[k..] && (ofKind && !dropped ==> k == 0)
    ensures var first := if ofKind then [head] else [];
            (if dropped then left else first + left) == (first + all)[(if ofKind && dropped then k + 1 else k)..]
  {
    assert [] + all == all && [] + left == left;
    assert ([head] + all)[k + 1..] == all[k..];
  }

  lemma KindOfHead(head: string, rest: seq<string>, tagged: set<string>, yes: bool)
    ensures Filter(IsTagged(tagged, yes), [head] + rest) ==
            (if (head in tagged) == yes then [head] else []) + Filter(IsTagged(tagged, yes), rest)
  {
    FilterCons(IsTagged(tagged, yes), head, rest);
  }

  lemma DropStep(ids: seq<string>, tagged: set<string>, m: nat, n: nat)
    requires ids != [] && m <= CountTagged(ids, tagged) && n <= |ids| - CountTagged(ids, tagged)
    ensures var head, tail := ids[0], ids[1..];
            var p, q := if head in tagged && m > 0 then m - 1 else m, if head !in tagged && n > 0 then n - 1 else n;
            var rest := DropFirst(tail, tagged, p, q);
            && DropFirst(ids, tagged, m, n) == (if p < m || q < n then rest else [head] + rest)
            && CountTagged(ids, tagged) == CountTagged(tail, tagged) + (if head in tagged then 1 else 0)
            && p <= CountTagged(tail, tagged) && q <= |tail| - CountTagged(tail, tagged)
  {
    DropNothing(ids[1..], tagged);
  }
}
