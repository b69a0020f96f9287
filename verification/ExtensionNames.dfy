/** The names of the files of the shared extension cache (src/core/vscodeExtensions.ts). */
module ExtensionNames {
  import opened Numerals
  import opened Seqs

  /** The folders of the store: without a target platform, or of one. */
  datatype Folder = Universal | LinuxX64 | LinuxArm64

  datatype Cached = Cached(id: string, version: string)

  const MAX_DIGITS: nat := 9

  // ---- The pattern of a name, as a relation ----

  predicate IsIdStart(c: char) { IsDigit(c) || 'a' <= c <= 'z' }

  /** `[a-z0-9][a-z0-9-]*` */
  predicate IsIdPart(s: string) { s != [] && IsIdStart(s[0]) && forall c :: c in s ==> IsIdStart(c) || c == '-' }

  /** `\d{1,9}` */
  predicate IsNumber(s: string) { 1 <= |s| <= MAX_DIGITS && forall c :: c in s ==> IsDigit(c) }

  predicate IsId(s: string) { |Split(s)| == 2 && IsIdPart(Split(s)[0]) && IsIdPart(Split(s)[1]) }

  predicate IsVersion(s: string) { |Split(s)| == 3 && IsNumber(Split(s)[0]) && IsNumber(Split(s)[1]) && IsNumber(Split(s)[2]) }

  function Suffix(folder: Folder): string {
    match folder
    case Universal => ""
    case LinuxX64 => "-linux-x64"
    case LinuxArm64 => "-linux-arm64"
  }

  /** The pattern matches the name, with these groups. */
  predicate Matches(name: string, id: string, version: string, folder: Folder) {
    IsId(id) && IsVersion(version) && name == id + "-" + version + Suffix(folder)
  }

  // ---- Making and reading a name ----

  function LowerOf(c: char): char { if 'A' <= c <= 'Z' then (c as int + 32) as char else c }

  function Lower(s: string): string { Map(LowerOf, s) }

  /** The cache name of a version of an extension. */
  function CacheName(id: string, version: string, folder: Folder): string { Lower(id + "-" + version + Suffix(folder)) }

  predicate EndsWith(s: string, end: string) { |end| <= |s| && s[|s| - |end|..] == end }

  function FolderOfName(name: string): Folder {
    if EndsWith(name, "-linux-x64") then LinuxX64 else if EndsWith(name, "-linux-arm64") then LinuxArm64 else Universal
  }

  /** The place of the last hyphen, or the length without one. */
  function LastHyphen(s: string): (i: nat)
    ensures i <= |s|
  {
    if s == [] then 0
    else if s[|s| - 1] == '-' then |s| - 1
    else
      var i := LastHyphen(s[..|s| - 1]);
      if i == |s| - 1 then |s| else i
  }

  /** The ID and the version of a file of a folder, by its name; none for a name that the cache does not give in it. */
  function ParseCached(name: string, folder: Folder): Option<Cached> {
    if FolderOfName(name) != folder || |name| < |Suffix(folder)| then None
    else
      var base := name[..|name| - |Suffix(folder)|];
      var i := LastHyphen(base);
      if i < |base| && IsId(base[..i]) && IsVersion(base[i + 1..]) then Some(Cached(base[..i], base[i + 1..])) else None
  }

  // ---- The name is unambiguous ----

  predicate InSomePart(parts: seq<string>, c: char) { exists j :: 0 <= j < |parts| && c in parts[j] }

  lemma {:induction false} CharsOfSplit(s: string, k: nat)
    requires k < |s| && s[k] != '.'
    ensures InSomePart(Split(s), s[k])
  {
    var rest, all := Split(s[1..]), Split(s);
    if k == 0 {
      assert all[0][0] == s[0];
    } else {
      CharsOfSplit(s[1..], k - 1);
      hide Split;
      var j :| 0 <= j < |rest| && s[k] in rest[j];
      if s[0] == '.' {
        assert all[j + 1] == rest[j];
      } else if j == 0 {
        var i :| 0 <= i < |rest[0]| && rest[0][i] == s[k];
        assert all[0][i + 1] == s[k];
      } else {
        assert all[j] == rest[j];
      }
    }
  }

  lemma VersionChars(v: string)
    requires IsVersion(v)
    ensures forall k :: 0 <= k < |v| ==> v[k] == '.' || IsDigit(v[k])
    ensures |v| >= 5
  {
    SplitLength(v);
    var parts := Split(v);
    forall k | 0 <= k < |v|
      ensures v[k] == '.' || IsDigit(v[k])
    {
      if v[k] != '.' { CharsOfSplit(v, k); }
    }
    assert Lengths(parts) == |parts[0]| + |parts[1]| + |parts[2]| by {
      assert parts[1..][1..][1..] == [];
      assert Lengths(parts[1..][1..]) == |parts[2]| + Lengths([]);
    }
    hide Split;
  }

  function Lengths(parts: seq<string>): nat { if parts == [] then 0 else |parts[0]| + Lengths(parts[1..]) }

  /** A split text has its parts and a dot between each two of them. */
  lemma {:induction false} SplitLength(s: string)
    ensures |s| + 1 == Lengths(Split(s)) + |Split(s)|
  {
    if s != [] {
      SplitLength(s[1..]);
      var rest := Split(s[1..]);
      if s[0] == '.' {
        assert ([[]] + rest)[1..] == rest;
      } else {
        assert ([[s[0]] + rest[0]] + rest[1..])[1..] == rest[1..];
      }
    }
  }

  lemma {:induction false} LastHyphenIs(before: string, after: string)
    requires forall k :: 0 <= k < |after| ==> after[k] != '-'
    ensures LastHyphen(before + "-" + after) == |before|
  {
    var s := before + "-" + after;
    if after != [] {
      assert s[..|s| - 1] == before + "-" + after[..|after| - 1];
      LastHyphenIs(before, after[..|after| - 1]);
    }
  }

  lemma FolderIsKnown(id: string, version: string, folder: Folder)
    requires IsVersion(version)
    ensures FolderOfName(id + "-" + version + Suffix(folder)) == folder
  {
    VersionChars(version);
    var name := id + "-" + version + Suffix(folder);
    hide IsVersion;
    match folder
    case Universal =>
      assert name[|name| - 3] == version[|version| - 3];
      EndsOtherwise(name, "-linux-x64", 3);
      EndsOtherwise(name, "-linux-arm64", 3);
    case LinuxX64 =>
      assert name[|name| - 10..] == "-linux-x64";
    case LinuxArm64 =>
      assert name[|name| - 12..] == "-linux-arm64";
      assert name[|name| - 4] == "-linux-arm64"[8];
      EndsOtherwise(name, "-linux-x64", 4);
  }

  lemma EndsOtherwise(s: string, end: string, back: nat)
    requires 1 <= back <= |end| && back <= |s| && s[|s| - back] != end[|end| - back]
    ensures !EndsWith(s, end)
  {
    assert forall k :: 0 <= k < |s| ==> |end| <= |s| && k >= |s| - |end| ==> s[|s| - |end|..][k - (|s| - |end|)] == s[k];
  }

  /** Reading a name is exactly the match of the pattern, in the folder of its platform: what is read is a match, and any
      match is what is read, although an ID may hold hyphens and digits. */
  lemma ParseIsMatch(name: string, folder: Folder, id: string, version: string)
    ensures ParseCached(name, folder) == Some(Cached(id, version)) <==> Matches(name, id, version, folder)
  {
    var suffix := Suffix(folder);
    if Matches(name, id, version, folder) {
      VersionChars(version);
      FolderIsKnown(id, version, folder);
      var base := name[..|name| - |suffix|];
      hide IsId, IsVersion, FolderOfName, Suffix;
      assert base == id + "-" + version;
      LastHyphenIs(id, version);
      assert base[..|id|] == id && base[|id| + 1..] == version;
    }
    if ParseCached(name, folder).Some? {
      ParsedMatches(name, folder);
    }
  }

  lemma ParsedMatches(name: string, folder: Folder)
    requires ParseCached(name, folder).Some?
    ensures var cached := ParseCached(name, folder).value;
            Matches(name, cached.id, cached.version, folder)
  {
    hide IsId, IsVersion;
    var suffix := Suffix(folder);
    var base := name[..|name| - |suffix|];
    LastHyphenFound(base);
    var i := LastHyphen(base);
    assert base == base[..i] + "-" + base[i + 1..];
    assert EndsWith(name, suffix);
    assert name == base + suffix;
  }

  lemma {:induction false} LastHyphenFound(s: string)
    requires LastHyphen(s) < |s|
    ensures s[LastHyphen(s)] == '-'
  {
    if s != [] && s[|s| - 1] != '-' {
      LastHyphenFound(s[..|s| - 1]);
    }
  }

  lemma LowerParts(id: string, version: string, folder: Folder)
    requires IsVersion(version)
    ensures CacheName(id, version, folder) == Lower(id) + "-" + version + Suffix(folder)
  {
    VersionChars(version);
    assert Lower(version) == version;
    assert Lower(Suffix(folder)) == Suffix(folder);
    hide IsVersion;
    assert Lower(id + "-" + version + Suffix(folder)) == Lower(id) + Lower("-") + Lower(version) + Lower(Suffix(folder));
  }

  /** Reading the cache name of a version gives back its ID (in lower case) and its version, in the folder of its platform,
      and nothing in the other folders. */
  lemma NameRoundTrip(id: string, version: string, folder: Folder, other: Folder)
    requires IsId(Lower(id)) && IsVersion(version)
    ensures ParseCached(CacheName(id, version, folder), folder) == Some(Cached(Lower(id), version))
    ensures other != folder ==> ParseCached(CacheName(id, version, folder), other) == None
  {
    LowerParts(id, version, folder);
    ParseIsMatch(CacheName(id, version, folder), folder, Lower(id), version);
    FolderIsKnown(Lower(id), version, folder);
    hide IsId, IsVersion, FolderOfName, CacheName;
  }

  /** Two names are the same exactly for the same ID (whatever its case), version and platform. */
  lemma NamesAreDistinct(id: string, version: string, folder: Folder, id2: string, version2: string, folder2: Folder)
    requires IsId(Lower(id)) && IsVersion(version) && IsId(Lower(id2)) && IsVersion(version2)
    ensures CacheName(id, version, folder) == CacheName(id2, version2, folder2) <==>
            Lower(id) == Lower(id2) && version == version2 && folder == folder2
  {
    NameRoundTrip(id, version, folder, folder2);
    NameRoundTrip(id2, version2, folder2, folder);
    LowerParts(id, version, folder);
    LowerParts(id2, version2, folder2);
    hide IsId, IsVersion, ParseCached, CacheName;
  }

  // ---- The names by their characters ----

  /** A version is three numbers of at most nine digits. */
  lemma VersionOfNumbers(v: seq<nat>)
    requires v != []
    ensures IsVersion(Dotted(v)) <==> |v| == 3 && v[0] < 1_000_000_000 && v[1] < 1_000_000_000 && v[2] < 1_000_000_000
  {
    hide IsNumber, Split, Dotted, Numeral, Value;
    SplitDotted(v);
    forall k | 0 <= k < |v|
      ensures IsNumber(Numeral(v[k])) <==> v[k] < 1_000_000_000
    {
      NineDigits(v[k]);
    }
  }

  lemma NineDigits(n: nat)
    ensures IsNumber(Numeral(n)) <==> n < 1_000_000_000
  {
    ValueOfNumeral(n);
    NumeralLength(n, 9);
    assert PowerOfTen(3) == 1000 && PowerOfTen(6) == 1_000_000 && PowerOfTen(9) == 1_000_000_000;
  }

  /** An ID is two texts of small letters, digits and hyphens, neither empty nor with a hyphen first. */
  lemma IdMeans(a: string, b: string)
    requires '.' !in a && '.' !in b
    ensures IsId(a + "." + b) <==>
              && a != "" && a[0] != '-' && b != "" && b[0] != '-'
              && forall c :: c in a + b ==> 'a' <= c <= 'z' || '0' <= c <= '9' || c == '-'
  {
    SplitFirst(a, b);
    SplitOne(b);
    hide Split;
    assert a != "" ==> a[0] in a;
    assert b != "" ==> b[0] in b;
    assert forall c :: c in a + b <==> c in a || c in b;
  }

  /** The name of a version: its ID in small letters, a hyphen, the numbers with dots, and the platform if it has one. */
  lemma NameOf(id: string, v: seq<nat>, folder: Folder)
    requires |v| == 3 && v[0] < 1_000_000_000 && v[1] < 1_000_000_000 && v[2] < 1_000_000_000
    ensures CacheName(id, Dotted(v), folder) ==
              Lower(id) + "-" + Dotted(v) + (match folder case Universal => "" case LinuxX64 => "-linux-x64" case LinuxArm64 => "-linux-arm64")
  {
    VersionOfNumbers(v);
    LowerParts(id, Dotted(v), folder);
    hide CacheName, IsVersion, Dotted, Lower;
  }

  /** The same letter, or one small and one capital. */
  predicate SameLetter(c: char, d: char) {
    || c == d
    || ('A' <= c <= 'Z' && d as int == c as int + 32)
    || ('A' <= d <= 'Z' && c as int == d as int + 32)
  }

  lemma LowerMeans(a: string, b: string)
    ensures Lower(a) == Lower(b) <==> |a| == |b| && forall k :: 0 <= k < |a| ==> SameLetter(a[k], b[k])
  {
    if |a| == |b| {
      forall k | 0 <= k < |a|
        ensures Lower(a)[k] == Lower(b)[k] <==> SameLetter(a[k], b[k])
      {
      }
    }
  }
}
