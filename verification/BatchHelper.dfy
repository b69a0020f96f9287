/** The preparation of the steps of the batch helper: folders are opened for a step and put back after it, whatever call
    fails and whatever takes the place of the configuration folder meanwhile (src/helperChannel/batchHelper.ts). */
module BatchHelper {
  import opened Seqs

  /** The permission bits of a mode (12 bits, with the sticky one). */
  type Permissions = bv12

  const CLOSED: Permissions := 0x1C0     // 0700
  const OPEN_STICKY: Permissions := 0x3FF  // 1777
  const REPAIRED: Permissions := 0x1ED   // 0755
  const NEVER_KEPT: Permissions := 0x212 // 1022: sticky, writable for others
  const GIT_UID: nat := 52741
  const NOBODY_ID: nat := 65534

  datatype Attr = Attr(permissions: Permissions, uid: nat, gid: nat)

  /** What the path of the configuration folder names: nothing, a link or a file, or a folder. */
  datatype Entry = Missing | NoFolder | Folder(inode: nat)

  datatype Repository = Real(uid: nat, gid: nat) | NotReal

  /** What the surroundings do, for every run of the helper: which of its calls fail, what the paths name at each call, and
      what the inodes look like after the step (its processes and those of the dev container may have changed any). */
  datatype Fate = Fate(fails: nat -> bool, entryAt: nat -> Entry, repositoryAt: nat -> Repository, afterStep: nat -> Attr)

  /** `descriptors`: the inode of each descriptor that the helper ever opened; `closes`: the descriptors that it closed, in order;
      `changed`: the inodes whose mode or owner it changed. */
  datatype Kernel = Kernel(calls: nat, attr: nat -> Attr, descriptors: seq<nat>, closes: seq<nat>, changed: set<nat>,
                           root: Permissions, secrets: Attr)

  // ---- The calls: each may fail, and then changes nothing ----

  function Called(k: Kernel): Kernel { k.(calls := k.calls + 1) }

  function Lstat(f: Fate, k: Kernel): Option<Entry> {
    if f.fails(k.calls) || f.entryAt(k.calls) == Missing then None else Some(f.entryAt(k.calls))
  }

  /** Opens the folder without following a link. */
  function Open(f: Fate, k: Kernel): (Kernel, Option<nat>) {
    if f.fails(k.calls) || !f.entryAt(k.calls).Folder? then (Called(k), None)
    else (Called(k).(descriptors := k.descriptors + [f.entryAt(k.calls).inode]), Some(|k.descriptors|))
  }

  function WithAttr(k: Kernel, inode: nat, a: Attr): Kernel {
    k.(attr := (i: nat) => if i == inode then a else k.attr(i), changed := k.changed + {inode})
  }

  function Fchmod(f: Fate, k: Kernel, d: nat, permissions: Permissions): (Kernel, bool)
    requires d < |k.descriptors|
  {
    if f.fails(k.calls) then (Called(k), false)
    else (WithAttr(Called(k), k.descriptors[d], k.attr(k.descriptors[d]).(permissions := permissions)), true)
  }

  function Fchown(f: Fate, k: Kernel, d: nat, uid: nat, gid: nat): (Kernel, bool)
    requires d < |k.descriptors|
  {
    if f.fails(k.calls) then (Called(k), false)
    else (WithAttr(Called(k), k.descriptors[d], k.attr(k.descriptors[d]).(uid := uid, gid := gid)), true)
  }

  /** A descriptor is gone after its close, also when the call reports an error. */
  function Close(f: Fate, k: Kernel, d: nat): (Kernel, bool) { (Called(k).(closes := k.closes + [d]), !f.fails(k.calls)) }

  function ChmodRoot(f: Fate, k: Kernel, permissions: Permissions): (Kernel, bool) {
    if f.fails(k.calls) then (Called(k), false) else (Called(k).(root := permissions), true)
  }

  function ChownSecrets(f: Fate, k: Kernel, uid: nat): (Kernel, bool) {
    if f.fails(k.calls) then (Called(k), false) else (Called(k).(secrets := k.secrets.(uid := uid, gid := uid)), true)
  }

  function ChmodSecrets(f: Fate, k: Kernel, permissions: Permissions): (Kernel, bool) {
    if f.fails(k.calls) then (Called(k), false) else (Called(k).(secrets := k.secrets.(permissions := permissions)), true)
  }

  /** A call of the folder of the overrides (removed, made, given to the owner). */
  function OverrideCall(f: Fate, k: Kernel): (Kernel, bool) { (Called(k), !f.fails(k.calls)) }

  /** The step runs; what it throws does not matter to the clean-up. */
  function Step(f: Fate, k: Kernel): (Kernel, bool) { (Called(k).(attr := f.afterStep), !f.fails(k.calls)) }

  // ---- The configuration folder ----

  /** What opening the configuration folder gives: an error, nothing, or its descriptor and what it looked like. */
  datatype Opened = Threw | Nothing | Found(d: nat, inode: nat, stat: Attr)

  function OpenConfig(f: Fate, k: Kernel): (Kernel, Opened) {
    var seen := Lstat(f, k);
    if seen == None || !seen.value.Folder? then (Called(k), Nothing)
    else
      var (k1, descriptor) := Open(f, Called(k));
      if descriptor == None then (k1, Nothing)
      else
        var d := descriptor.value;
        if f.fails(k1.calls) then (Called(k1), Threw)
        else if k1.descriptors[d] != seen.value.inode then
          var (k2, closed) := Close(f, Called(k1), d);
          (k2, if closed then Nothing else Threw)
        else (Called(k1), Found(d, k1.descriptors[d], k1.attr(k1.descriptors[d])))
  }

  /** Every descriptor that was opened from one moment to another was closed once. */
  ghost predicate AllClosed(before: Kernel, after: Kernel) {
    && |before.descriptors| <= |after.descriptors|
    && after.closes == before.closes + seq(|after.descriptors| - |before.descriptors|, i requires i >= 0 => |before.descriptors| + i)
  }

  /** The stat of the descriptor fails: the only call whose failure leaves a descriptor open. */
  predicate StatFails(f: Fate, k: Kernel) {
    && !f.fails(k.calls) && f.entryAt(k.calls).Folder?
    && !f.fails(k.calls + 1) && f.entryAt(k.calls + 1).Folder?
    && f.fails(k.calls + 2)
  }

  /** The folder that is found is the one that the path named twice, nothing was changed yet, and only its descriptor is
      open. Without one, the descriptor is closed again, except exactly when its stat fails: that one stays open. */
  lemma OpenConfigIs(f: Fate, k: Kernel)
    ensures var (t, r) := OpenConfig(f, k);
            && t.attr == k.attr && t.changed == k.changed && t.root == k.root && t.secrets == k.secrets
            && (r.Found? ==> && f.entryAt(k.calls) == f.entryAt(k.calls + 1) == Folder(r.inode)
                             && r.d == |k.descriptors| && t.descriptors == k.descriptors + [r.inode] && t.closes == k.closes && r.stat == k.attr(r.inode))
            && (!r.Found? ==> (AllClosed(k, t) <==> !StatFails(f, k)))
            && (StatFails(f, k) ==> r == Threw && t.descriptors == k.descriptors + [f.entryAt(k.calls + 1).inode] && t.closes == k.closes)
    ensures var at, (t, r) := k.calls, OpenConfig(f, k);
            var seen := !f.fails(at) && f.entryAt(at).Folder?;
            var entered := seen && !f.fails(at + 1) && f.entryAt(at + 1).Folder?;
            var same := entered && !f.fails(at + 2) && f.entryAt(at) == f.entryAt(at + 1);
            && (r.Found? <==> same)
            && (r == Threw <==> entered && !same && (f.fails(at + 2) || f.fails(at + 3)))
            && t.calls == at + if !seen then 1 else if !entered then 2 else if same || f.fails(at + 2) then 3 else 4
  {
    var (t, r) := OpenConfig(f, k);
    assert seq(0, i requires i >= 0 => |k.descriptors| + i) == [];
    assert seq(1, i requires i >= 0 => |k.descriptors| + i) == [|k.descriptors|];
    assert k.closes + [] == k.closes;
  }

  /** A descriptor that the failed stat of a folder leaves open. */
  lemma FailedStatLeaks()
    ensures var f := Fate(n => n == 2, _ => Folder(7), _ => NotReal, _ => Attr(0, 0, 0));
            var k := Kernel(0, _ => Attr(CLOSED, 0, 0), [], [], {}, 0, Attr(0, 0, 0));
            var (t, r) := OpenConfig(f, k);
            r == Threw && t.descriptors == [7] && t.closes == [] && !AllClosed(k, t)
  {
    var f := Fate(n => n == 2, _ => Folder(7), _ => NotReal, _ => Attr(0, 0, 0));
    OpenConfigIs(f, Kernel(0, _ => Attr(CLOSED, 0, 0), [], [], {}, 0, Attr(0, 0, 0)));
  }

  function KeptMode(mode: Permissions): Permissions { mode & !NEVER_KEPT }

  /** Neither sticky nor writable for others (1022), and else as before. */
  predicate IsKeptMode(before: Permissions, after: Permissions) { after & 0x212 == 0 && after | (before & 0x212) == before }

  lemma RootModeAfter(mode: Permissions)
    ensures IsKeptMode(mode, KeptMode(mode))
  {
  }

  // ---- The restores ----

  datatype Restore = ConfigMode(d: nat, permissions: Permissions) | ConfigOwner(d: nat, back: Attr) | Root(permissions: Permissions)
                   | Secrets | Overrides

  predicate IsConfig(r: Restore) { r.ConfigMode? || r.ConfigOwner? }

  /** The restores that a step pushes: that of the configuration folder first, and each kind once. */
  ghost predicate IsPushed(k: Kernel, restores: seq<Restore>) {
    && (forall i :: 0 <= i < |restores| && IsConfig(restores[i]) ==> i == 0 && restores[i].d < |k.descriptors|)
    && (forall i, j :: 0 <= i < |restores| && 0 <= j < |restores| && restores[i].Root? && restores[j].Root? ==> i == j)
    && (forall i, j :: 0 <= i < |restores| && 0 <= j < |restores| && restores[i].Secrets? && restores[j].Secrets? ==> i == j)
  }

  /** The mode, or the owner and the mode, that a restore of the configuration folder gives back. */
  predicate IsBack(r: Restore, a: Attr) {
    match r
    case ConfigMode(_, permissions) => a.permissions == permissions
    case ConfigOwner(_, back) => a == back
    case _ => true
  }

  predicate SameOwner(a: Attr, b: Attr) { a.uid == b.uid && a.gid == b.gid }

  /** Only the inode may have another mode or owner, by the helper. */
  ghost predicate ChangesOnly(before: Kernel, after: Kernel, inodes: set<nat>) {
    && after.changed <= before.changed + inodes
    && forall i: nat :: i !in inodes ==> after.attr(i) == before.attr(i)
  }

  /** What a step left when every process of it is gone: the restores that it pushed, in order; `ran`: the step itself was
      started, with the folders as in `atStep`; `calls`: how many calls were made before its clean-up. */
  datatype Prepared = Prepared(config: Opened, restores: seq<Restore>, ran: bool, atStep: Kernel, calls: nat)

  // ---- Which calls are made, and which must succeed ----

  /** No call from `start` on, before `end`, fails. */
  predicate AllSucceed(f: Fate, start: nat, end: nat) { forall n :: start <= n < end ==> !f.fails(n) }

  /** How many calls a restore makes that starts at the call `at`: behind one that fails only the close of its descriptor. */
  function CallsOf(f: Fate, at: nat, r: Restore): nat {
    match r
    case ConfigMode(_, _) => 2
    case ConfigOwner(_, _) => if f.fails(at) then 2 else 3
    case Secrets => if f.fails(at) then 1 else 2
    case Root(_) => 1
    case Overrides => 1
  }

  /** The call at which a restore starts, when the last pushed one starts at `at`. */
  function StartOf(f: Fate, at: nat, restores: seq<Restore>, i: nat): nat
    requires i < |restores|
    decreases |restores| - i
  {
    if i == |restores| - 1 then at
    else
      var before := StartOf(f, at, restores, i + 1);
      before + CallsOf(f, before, restores[i + 1])
  }

  /** Every restore runs, the last pushed first, and throws if and only if one of its calls does. */
  ghost predicate RanInTurn(f: Fate, at: nat, restores: seq<Restore>, oks: seq<bool>) {
    && |oks| == |restores|
    && forall i :: 0 <= i < |restores| ==> (oks[i] <==> RunsWell(f, at, restores, i))
  }

  predicate RunsWell(f: Fate, at: nat, restores: seq<Restore>, i: nat)
    requires i < |restores|
  {
    var start := StartOf(f, at, restores, i);
    AllSucceed(f, start, start + CallsOf(f, start, restores[i]))
  }

  lemma NextStart(f: Fate, at: nat, restores: seq<Restore>, i: nat)
    requires i < |restores|
    ensures StartOf(f, at, restores, i) ==
              if i == |restores| - 1 then at
              else StartOf(f, at, restores, i + 1) + CallsOf(f, StartOf(f, at, restores, i + 1), restores[i + 1])
  {
  }

  /** The calls before a step of the Git user from the configuration folder on: its close, and those of the volume and the secrets. */
  function GitCalls(config: Opened, needsSecret: bool): nat { (if config.Found? then 1 else 0) + (if needsSecret then 3 else 2) }

  /** The restores that it pushes, when the first of these calls is `at`. */
  function GitRestores(f: Fate, at: nat, config: Opened, needsSecret: bool, root: Permissions): seq<Restore> {
    if config == Threw then []
    else
      var volume := if config.Found? then at + 1 else at;
      (if config.Found? then [ConfigMode(config.d, config.stat.permissions)] else [])
      + (if AllSucceed(f, at, volume + 2) then [Root(KeptMode(root))] else [])
      + (if needsSecret && AllSucceed(f, at, volume + 3) then [Secrets] else [])
  }

  /** The calls of a step of the owner for the configuration folder. */
  function ConfigCalls(config: Opened, repository: Repository, closes: bool): nat {
    if !config.Found? then 0 else if closes then 2 else if IsCutOff(config.stat, repository) then 3 else 1
  }

  /** A step of the Git user runs if and only if none of the calls before it fails (a configuration folder that cannot be opened is
      none); it has pushed a restore for each change that was made. */
  ghost predicate IsGitStep(f: Fate, at: nat, needsSecret: bool, root: Permissions, p: Prepared) {
    && p.restores == GitRestores(f, at, p.config, needsSecret, root)
    && (p.ran <==> p.config != Threw && AllSucceed(f, at, at + GitCalls(p.config, needsSecret)))
    && (p.ran ==> p.atStep.calls == at + GitCalls(p.config, needsSecret) && p.calls == p.atStep.calls + 1)
  }

  /** The same for a step of the owner. */
  ghost predicate IsOwnerStep(f: Fate, at: nat, repository: Repository, closes: bool, p: Prepared) {
    && p.restores == OwnerRestores(f, at, p.config, repository, closes)
    && (p.ran <==> p.config != Threw && AllSucceed(f, at, at + OwnerCalls(p.config, repository, closes)))
    && (p.ran ==> p.atStep.calls == at + OwnerCalls(p.config, repository, closes) && p.calls == p.atStep.calls + 1)
  }

  /** The same with those of the folder of the overrides, which root does not give away; nobody's is given to 65534. */
  function OwnerCalls(config: Opened, repository: Repository, closes: bool): nat {
    ConfigCalls(config, repository, closes) + if repository.Real? && repository.uid == 0 then 2 else 3
  }

  function OwnerRestores(f: Fate, at: nat, config: Opened, repository: Repository, closes: bool): seq<Restore> {
    if config == Threw then []
    else
      (if config.Found? && closes then [ConfigOwner(config.d, BackTo(config.stat, repository))] else [])
      + (if AllSucceed(f, at, at + ConfigCalls(config, repository, closes) + 1) then [Overrides] else [])
  }

  /** The restores of a step of the Git user that ran. */
  predicate HasRestores(p: Prepared, needsSecret: bool) {
    var n := if p.config.Found? then 1 else 0;
    |p.restores| == n + (if needsSecret then 2 else 1) && p.restores[n].Root? && (needsSecret ==> p.restores[n + 1].Secrets?)
  }

  /** The folder of the step: what its path names, nobody's when it is missing or no folder. */
  function RepositoryAt(f: Fate, k: Kernel): Repository { if f.fails(k.calls) then NotReal else f.repositoryAt(k.calls) }

  /** Root's and closed: only a step that was killed leaves the configuration folder so. */
  predicate IsCutOff(stat: Attr, repository: Repository) { stat == Attr(CLOSED, 0, 0) && repository.Real? }

  /** What the configuration folder goes back to after a step of the owner: what it was, or the owner's again. */
  function BackTo(stat: Attr, repository: Repository): Attr {
    if IsCutOff(stat, repository) then Attr(REPAIRED, repository.uid, repository.gid) else stat
  }

  /** Before the first step of the Git user in a helper process, what a killed helper left is repaired; this may throw. */
  predicate RepairThrows(f: Fate, k: Kernel, repaired: bool) { !repaired && f.fails(k.calls) }

  function AfterRepair(k: Kernel, repaired: bool): Kernel { if repaired then k else Called(k) }

  /** A folder that a killed step left closed goes back to the owner of the repository, any other to what it was. */
  lemma BackMeans(stat: Attr, repository: Repository)
    ensures BackTo(stat, repository) ==
              if stat == Attr(0x1C0, 0, 0) && repository.Real? then Attr(0x1ED, repository.uid, repository.gid) else stat
  {
  }

  lemma GitStepCut(f: Fate, at: nat, needsSecret: bool, root: Permissions, p: Prepared)
    requires !p.ran
    requires if p.config == Threw then p.restores == []
             else p.config.Found? && f.fails(at) && p.restores == [ConfigMode(p.config.d, p.config.stat.permissions)]
    ensures IsGitStep(f, at, needsSecret, root, p)
  {
    hide KeptMode;
  }

  lemma GitStepIs(f: Fate, at: nat, needsSecret: bool, root: Permissions, more: seq<Restore>, p: Prepared)
    requires p.config != Threw && (p.config.Found? ==> !f.fails(at))
    requires p.restores == (if p.config.Found? then [ConfigMode(p.config.d, p.config.stat.permissions)] else []) + more
    requires var volume, n := if p.config.Found? then at + 1 else at, if needsSecret then 3 else 2;
             && (p.ran <==> AllSucceed(f, volume, volume + n))
             && (p.ran ==> p.atStep.calls == volume + n && p.calls == p.atStep.calls + 1)
             && more == (if AllSucceed(f, volume, volume + 2) then [Root(KeptMode(root))] else [])
                        + (if needsSecret && AllSucceed(f, volume, volume + 3) then [Secrets] else [])
    ensures IsGitStep(f, at, needsSecret, root, p)
  {
    hide KeptMode;
    assert forall end :: AllSucceed(f, at, end) <==> AllSucceed(f, if p.config.Found? then at + 1 else at, end);
  }

  class Helper {
    const fate: Fate
    var k: Kernel
    var repaired: bool

    constructor (fate: Fate, k: Kernel)
      ensures this.fate == fate && this.k == k && !repaired
    {
      this.fate, this.k, repaired := fate, k, false;
    }

    method OpenConfigFolder() returns (r: Opened)
      modifies this`k
      ensures (k, r) == OpenConfig(fate, old(k))
    {
      var seen := Lstat(fate, k);
      k := Called(k);
      if seen == None || !seen.value.Folder? { return Nothing; }
      var (k1, descriptor) := Open(fate, k);
      k := k1;
      if descriptor == None { return Nothing; }
      var d := descriptor.value;
      if fate.fails(k.calls) {
        k := Called(k);
        return Threw;
      }
      var inode := k.descriptors[d];
      var stat := k.attr(inode);
      k := Called(k);
      if inode != seen.value.inode {
        var (k2, closed) := Close(fate, k, d);
        k := k2;
        return if closed then Nothing else Threw;
      }
      r := Found(d, inode, stat);
    }

    // Calls that may throw: false when they did.

    method Chmod(d: nat, permissions: Permissions) returns (ok: bool)
      requires d < |k.descriptors|
      modifies this`k
      ensures (k, ok) == Fchmod(fate, old(k), d, permissions)
    {
      var (k1, r) := Fchmod(fate, k, d, permissions);
      k, ok := k1, r;
    }

    method Chown(d: nat, uid: nat, gid: nat) returns (ok: bool)
      requires d < |k.descriptors|
      modifies this`k
      ensures (k, ok) == Fchown(fate, old(k), d, uid, gid)
    {
      var (k1, r) := Fchown(fate, k, d, uid, gid);
      k, ok := k1, r;
    }

    /** One restore. That of the configuration folder closes its descriptor on every path. */
    method RunRestore(r: Restore) returns (ok: bool)
      requires IsConfig(r) ==> r.d < |k.descriptors|
      modifies this`k
      ensures k.descriptors == old(k).descriptors
      ensures IsConfig(r) ==> k.closes == old(k).closes + [r.d] && ChangesOnly(old(k), k, {k.descriptors[r.d]})
      ensures IsConfig(r) && ok ==> IsBack(r, k.attr(k.descriptors[r.d]))
      ensures r.ConfigMode? ==> SameOwner(old(k).attr(k.descriptors[r.d]), k.attr(k.descriptors[r.d]))
      ensures !IsConfig(r) ==> k.closes == old(k).closes && ChangesOnly(old(k), k, {})
      ensures if r.Root? then ok ==> k.root == r.permissions else k.root == old(k).root
      ensures if r.Secrets? then ok ==> k.secrets == Attr(CLOSED, 0, 0) else k.secrets == old(k).secrets
      ensures k.calls == old(k).calls + CallsOf(fate, old(k).calls, r) && (ok <==> AllSucceed(fate, old(k).calls, k.calls))
    {
      match r
      case ConfigMode(d, permissions) =>
        ok := Chmod(d, permissions);
        var (k1, closed) := Close(fate, k, d);
        k, ok := k1, ok && closed;
      case ConfigOwner(d, back) =>
        ok := Chown(d, back.uid, back.gid);
        if ok { ok := Chmod(d, back.permissions); }
        var (k1, closed) := Close(fate, k, d);
        k, ok := k1, ok && closed;
      case Root(permissions) =>
        var (k1, done) := ChmodRoot(fate, k, permissions);
        k, ok := k1, done;
      case Secrets =>
        var (k1, owned) := ChownSecrets(fate, k, 0);
        k, ok := k1, owned;
        if ok {
          var (k2, done) := ChmodSecrets(fate, k, CLOSED);
          k, ok := k2, done;
        }
      case Overrides =>
        var (k1, done) := OverrideCall(fate, k);
        k, ok := k1, done;
    }

    /** Every restore runs, the last pushed first, also when one before it throws. */
    method RestoreAll(restores: seq<Restore>) returns (oks: seq<bool>)
      requires IsPushed(k, restores)
      modifies this`k
      ensures |oks| == |restores| && k.descriptors == old(k).descriptors
      ensures if restores != [] && IsConfig(restores[0])
              then k.closes == old(k).closes + [restores[0].d] && ChangesOnly(old(k), k, {k.descriptors[restores[0].d]})
                   && (oks[0] ==> IsBack(restores[0], k.attr(k.descriptors[restores[0].d])))
              else k.closes == old(k).closes && ChangesOnly(old(k), k, {})
      ensures restores != [] && restores[0].ConfigMode? ==>
                SameOwner(old(k).attr(k.descriptors[restores[0].d]), k.attr(k.descriptors[restores[0].d]))
      ensures forall i :: 0 <= i < |restores| && restores[i].Root? && oks[i] ==> k.root == restores[i].permissions
      ensures forall i :: 0 <= i < |restores| && restores[i].Secrets? && oks[i] ==> k.secrets == Attr(CLOSED, 0, 0)
      ensures RanInTurn(fate, old(k).calls, restores, oks)
    {
      oks := [];
      hide StartOf, CallsOf, AllSucceed;
      for i := |restores| downto 0
        invariant |oks| == |restores| - i && k.descriptors == old(k).descriptors
        invariant i > 0 || restores == [] || !IsConfig(restores[0]) ==> k.closes == old(k).closes && ChangesOnly(old(k), k, {})
        invariant i == 0 && restores != [] && IsConfig(restores[0]) ==>
                    k.closes == old(k).closes + [restores[0].d] && ChangesOnly(old(k), k, {k.descriptors[restores[0].d]})
                    && (oks[0] ==> IsBack(restores[0], k.attr(k.descriptors[restores[0].d])))
        invariant i == 0 && restores != [] && restores[0].ConfigMode? ==>
                    SameOwner(old(k).attr(k.descriptors[restores[0].d]), k.attr(k.descriptors[restores[0].d]))
        invariant forall j :: i <= j < |restores| && restores[j].Root? && oks[j - i] ==> k.root == restores[j].permissions
        invariant forall j :: i <= j < |restores| && restores[j].Secrets? && oks[j - i] ==> k.secrets == Attr(CLOSED, 0, 0)
        invariant i < |restores| ==> k.calls == StartOf(fate, old(k).calls, restores, i) + CallsOf(fate, StartOf(fate, old(k).calls, restores, i), restores[i])
        invariant i == |restores| ==> k.calls == old(k).calls
        invariant forall j :: i <= j < |restores| ==> (oks[j - i] <==> RunsWell(fate, old(k).calls, restores, j))
      {
        NextStart(fate, old(k).calls, restores, i);
        var ok := RunRestore(restores[i]);
        oks := [ok] + oks;
      }
    }

    /** What comes before a step of the Git user, and the step: until the first call that throws. */
    method PrepareGitStep(needsSecret: bool) returns (p: Prepared)
      modifies this`k, this`repaired
      ensures repaired == (old(repaired) || !RepairThrows(fate, old(k), old(repaired)))
      ensures RepairThrows(fate, old(k), old(repaired)) ==> p == Prepared(Threw, [], false, k, k.calls) && k == Called(old(k))
      ensures !RepairThrows(fate, old(k), old(repaired)) ==>
                IsGitStep(fate, OpenConfig(fate, AfterRepair(old(k), old(repaired))).0.calls, needsSecret, old(k).root, p)
      ensures p.calls == k.calls
      ensures !RepairThrows(fate, old(k), old(repaired)) ==>
                p.config == OpenConfig(fate, AfterRepair(old(k), old(repaired))).1 && IsPushed(k, p.restores)
      ensures p.config.Found? ==>
                && k.descriptors == old(k).descriptors + [p.config.inode] && k.closes == old(k).closes && p.config.d == |old(k).descriptors|
                && k.changed <= old(k).changed + {p.config.inode}
                && p.restores != [] && p.restores[0] == ConfigMode(p.config.d, p.config.stat.permissions)
                && (p.ran ==> p.atStep.attr(p.config.inode) == p.config.stat.(permissions := CLOSED) && k.attr == fate.afterStep)
      ensures !p.config.Found? && !RepairThrows(fate, old(k), old(repaired)) ==>
                var seen := OpenConfig(fate, AfterRepair(old(k), old(repaired))).0;
                && k.descriptors == seen.descriptors && k.closes == seen.closes
                && k.changed == old(k).changed && (p.restores == [] || !IsConfig(p.restores[0]))
      ensures forall r :: r in p.restores && r.Root? ==> r.permissions == KeptMode(old(k).root)
      ensures p.ran ==> p.atStep.root == OPEN_STICKY && HasRestores(p, needsSecret) && (needsSecret ==> p.atStep.secrets.uid == GIT_UID)
    {
      hide KeptMode, OpenConfig, StatFails, AllClosed;
      if !repaired {
        var fails := fate.fails(k.calls);
        k := Called(k);
        if fails { return Prepared(Threw, [], false, k, k.calls); }
        repaired := true;
      }
      p := PrepareFolders(needsSecret);
    }

    /** The same after the repair. */
    method PrepareFolders(needsSecret: bool) returns (p: Prepared)
      modifies this`k
      ensures p.config == OpenConfig(fate, old(k)).1 && IsPushed(k, p.restores)
      ensures IsGitStep(fate, OpenConfig(fate, old(k)).0.calls, needsSecret, old(k).root, p) && p.calls == k.calls
      ensures p.config.Found? ==>
                && k.descriptors == old(k).descriptors + [p.config.inode] && k.closes == old(k).closes && p.config.d == |old(k).descriptors|
                && k.changed <= old(k).changed + {p.config.inode}
                && p.restores != [] && p.restores[0] == ConfigMode(p.config.d, p.config.stat.permissions)
                && (p.ran ==> p.atStep.attr(p.config.inode) == p.config.stat.(permissions := CLOSED) && k.attr == fate.afterStep)
      ensures !p.config.Found? ==>
                && k.descriptors == OpenConfig(fate, old(k)).0.descriptors && k.closes == OpenConfig(fate, old(k)).0.closes
                && k.changed == old(k).changed && (p.restores == [] || !IsConfig(p.restores[0]))
      ensures forall r :: r in p.restores && r.Root? ==> r.permissions == KeptMode(old(k).root)
      ensures p.ran ==> p.atStep.root == OPEN_STICKY && HasRestores(p, needsSecret) && (needsSecret ==> p.atStep.secrets.uid == GIT_UID)
    {
      hide KeptMode, OpenConfig, StatFails, AllClosed, IsGitStep, AllSucceed, GitRestores;
      OpenConfigIs(fate, k);
      var config := OpenConfigFolder();
      var restores: seq<Restore> := [];
      p := Prepared(config, restores, false, k, k.calls);
      ghost var at := k.calls;
      if config == Threw {
        GitStepCut(fate, at, needsSecret, old(k).root, p);
        return;
      }
      if config.Found? {
        restores := [ConfigMode(config.d, config.stat.permissions)];
        var closed := Chmod(config.d, CLOSED);
        p := p.(restores := restores, calls := k.calls);
        if !closed {
          GitStepCut(fate, at, needsSecret, old(k).root, p);
          return;
        }
      }
      var more, ran, atStep := OpenVolume(needsSecret);
      p := Prepared(config, restores + more, ran, atStep, k.calls);
      GitStepIs(fate, at, needsSecret, old(k).root, more, p);
    }

    /** The folder of the volume and the folder of the secrets: mount points, which their paths always reach. Then the step. */
    method OpenVolume(needsSecret: bool) returns (restores: seq<Restore>, ran: bool, atStep: Kernel)
      modifies this`k
      ensures k.descriptors == old(k).descriptors && k.closes == old(k).closes && k.changed == old(k).changed
      ensures restores == if |restores| == 0 then [] else if |restores| == 1 then [Root(KeptMode(old(k).root))]
                          else [Root(KeptMode(old(k).root)), Secrets]
      ensures ran ==> atStep.attr == old(k).attr && atStep.root == OPEN_STICKY && |restores| == if needsSecret then 2 else 1
      ensures ran && needsSecret ==> atStep.secrets.uid == GIT_UID
      ensures ran ==> k.attr == fate.afterStep
      ensures var at := old(k).calls;
              && (ran <==> AllSucceed(fate, at, at + if needsSecret then 3 else 2))
              && (ran ==> atStep.calls == (at + if needsSecret then 3 else 2) && k.calls == atStep.calls + 1)
              && restores == (if AllSucceed(fate, at, at + 2) then [Root(KeptMode(old(k).root))] else [])
                             + (if needsSecret && AllSucceed(fate, at, at + 3) then [Secrets] else [])
    {
      hide KeptMode;
      restores, ran, atStep := [], false, k;
      var root := k.root;
      if fate.fails(k.calls) {
        k := Called(k);
        return;
      }
      k := Called(k);
      var (k1, sticky) := ChmodRoot(fate, k, OPEN_STICKY);
      k := k1;
      if !sticky { return; }
      restores := [Root(KeptMode(root))];
      if needsSecret {
        var (k2, given) := ChownSecrets(fate, k, GIT_UID);
        k := k2;
        if !given { return; }
        restores := restores + [Secrets];
      }
      ran, atStep := true, k;
      var (k3, _) := Step(fate, k);
      k := k3;
    }

    /** A step of the Git user and all that comes after it. Of the configuration folders only the inode that was opened at the
        start has its mode changed, and no owner is; every restore that was pushed is attempted; the mode is back when its
        restore does not throw; the volume's folder is then never sticky nor writable for others; every descriptor is closed
        once, except exactly when its stat failed. When the repair at the start throws, nothing was opened. */
    method AsGitUser(needsSecret: bool) returns (p: Prepared, oks: seq<bool>)
      modifies this`k, this`repaired
      ensures repaired == (old(repaired) || !RepairThrows(fate, old(k), old(repaired)))
      ensures |oks| == |p.restores| && RanInTurn(fate, p.calls, p.restores, oks)
      ensures !RepairThrows(fate, old(k), old(repaired)) ==>
                IsGitStep(fate, OpenConfig(fate, AfterRepair(old(k), old(repaired))).0.calls, needsSecret, old(k).root, p)
      ensures if RepairThrows(fate, old(k), old(repaired)) then p.config == Threw && p.restores == [] && !p.ran
              else p.config == OpenConfig(fate, AfterRepair(old(k), old(repaired))).1
      ensures AllClosed(old(k), k) <==>
                RepairThrows(fate, old(k), old(repaired)) || !StatFails(fate, AfterRepair(old(k), old(repaired)))
      ensures k.changed <= old(k).changed + if p.config.Found? then {p.config.inode} else {}
      ensures p.config.Found? ==> |oks| > 0 && (oks[0] ==> k.attr(p.config.inode).permissions == p.config.stat.permissions)
      ensures p.config.Found? && p.ran ==>
                && p.atStep.attr(p.config.inode) == p.config.stat.(permissions := 0x1C0)
                && SameOwner(fate.afterStep(p.config.inode), k.attr(p.config.inode))
      ensures forall i :: 0 <= i < |oks| && p.restores[i].Root? && oks[i] ==>
                IsKeptMode(old(k).root, k.root)
      ensures p.ran ==> HasRestores(p, needsSecret) && p.atStep.root == 0x3FF && (needsSecret ==> p.atStep.secrets.uid == 52741)
      ensures forall i :: 0 <= i < |oks| && p.restores[i].Secrets? && oks[i] ==> k.secrets == Attr(0x1C0, 0, 0)
    {
      p := PrepareGitStep(needsSecret);
      OpenConfigIs(fate, AfterRepair(old(k), old(repaired)));
      RootModeAfter(old(k).root);
      hide OpenConfig, StatFails, KeptMode, IsKeptMode;
      oks := RestoreAll(p.restores);
      if p.config.Found? { OneClosed(old(k), k); }
      if RepairThrows(fate, old(k), old(repaired)) { NothingOpened(old(k), k); }
    }

    /** The part of the preparation of an owner's step that has the configuration folder open; false when a call threw. */
    method CloseOrRepair(config: Opened, repository: Repository, closes: bool) returns (restores: seq<Restore>, ok: bool)
      requires config.Found? && config.d < |k.descriptors| && k.descriptors[config.d] == config.inode
      requires config.stat == k.attr(config.inode)
      modifies this`k
      ensures k.descriptors == old(k).descriptors
      ensures if closes then restores == [ConfigOwner(config.d, BackTo(config.stat, repository))] && k.closes == old(k).closes
              else restores == [] && k.closes == old(k).closes + [config.d]
      ensures k.changed <= old(k).changed + (if closes || IsCutOff(config.stat, repository) then {config.inode} else {})
      ensures ok ==> k.attr(config.inode) == if closes then Attr(CLOSED, 0, 0) else BackTo(config.stat, repository)
      ensures var end := old(k).calls + ConfigCalls(config, repository, closes);
              (ok <==> AllSucceed(fate, old(k).calls, end)) && (ok ==> k.calls == end)
    {
      var d, back := config.d, BackTo(config.stat, repository);
      restores, ok := [], true;
      var kept := false;
      if closes {
        restores := [ConfigOwner(d, back)];
        kept := true;
        ok := Chmod(d, CLOSED);
        if ok { ok := Chown(d, 0, 0); }
      } else if IsCutOff(config.stat, repository) {
        ok := Chown(d, back.uid, back.gid);
        if ok { ok := Chmod(d, back.permissions); }
      }
      if !kept {
        var (k1, closed) := Close(fate, k, d);
        k, ok := k1, ok && closed;
      }
    }

    /** The folder of the overrides is made anew for the owner. Then the step. */
    method OpenOverrides(owner: nat) returns (restores: seq<Restore>, ran: bool, atStep: Kernel)
      modifies this`k
      ensures k.descriptors == old(k).descriptors && k.closes == old(k).closes && k.changed == old(k).changed
      ensures restores == [] || restores == [Overrides]
      ensures ran ==> restores == [Overrides] && atStep.attr == old(k).attr && k.attr == fate.afterStep
      ensures var at := old(k).calls;
              && (ran <==> AllSucceed(fate, at, at + if owner == 0 then 2 else 3))
              && (ran ==> atStep.calls == (at + if owner == 0 then 2 else 3) && k.calls == atStep.calls + 1)
              && restores == if AllSucceed(fate, at, at + 1) then [Overrides] else []
    {
      restores, ran, atStep := [], false, k;
      var (k1, removed) := OverrideCall(fate, k);
      k := k1;
      if !removed { return; }
      restores := [Overrides];
      var (k2, made) := OverrideCall(fate, k);
      k := k2;
      if !made { return; }
      if owner != 0 {
        var (k3, given) := OverrideCall(fate, k);
        k := k3;
        if !given { return; }
      }
      ran, atStep := true, k;
      var (k4, _) := Step(fate, k);
      k := k4;
    }

    method PrepareOwnerStep(closes: bool) returns (p: Prepared, repository: Repository)
      modifies this`k
      ensures repository == RepositoryAt(fate, old(k)) && p.config == OpenConfig(fate, Called(old(k))).1
      ensures IsOwnerStep(fate, OpenConfig(fate, Called(old(k))).0.calls, repository, closes, p) && p.calls == k.calls
      ensures p.config.Found? ==>
                && p.config.d == |old(k).descriptors| && k.descriptors == old(k).descriptors + [p.config.inode]
                && k.changed <= old(k).changed + (if closes || IsCutOff(p.config.stat, repository) then {p.config.inode} else {})
                && (p.ran ==> p.atStep.attr(p.config.inode) == if closes then Attr(CLOSED, 0, 0) else BackTo(p.config.stat, repository))
      ensures if p.config.Found? && closes
              then p.restores != [] && p.restores[0] == ConfigOwner(p.config.d, BackTo(p.config.stat, repository)) && k.closes == old(k).closes
                   && (|p.restores| == 1 || p.restores[1..] == [Overrides])
              else p.restores == [] || p.restores == [Overrides]
      ensures p.config.Found? && !closes ==> k.closes == old(k).closes + [p.config.d]
      ensures !p.config.Found? ==>
                && k.descriptors == OpenConfig(fate, Called(old(k))).0.descriptors
                && k.closes == OpenConfig(fate, Called(old(k))).0.closes && k.changed == old(k).changed
      ensures p.ran ==> |p.restores| > 0 && p.restores[|p.restores| - 1] == Overrides
    {
      hide OpenConfig, StatFails, AllClosed, IsCutOff, BackTo, ChangesOnly;
      repository := RepositoryAt(fate, k);
      k := Called(k);
      OpenConfigIs(fate, k);
      var config := OpenConfigFolder();
      p := Prepared(config, [], false, k, k.calls);
      if config == Threw { return; }
      if config.Found? {
        var restores, ok := CloseOrRepair(config, repository, closes);
        p := p.(restores := restores, calls := k.calls);
        if !ok { return; }
      }
      var more, ran, atStep := OpenOverrides(if repository.Real? then repository.uid else NOBODY_ID);
      p := Prepared(config, p.restores + more, ran, atStep, k.calls);
    }

    /** A step of the owner of the repository and all that comes after it. `closes`: the configuration folder is root's and
        closed during the step. Only the inode that was opened at the start is changed, and none when the step leaves it open
        and no killed step left it closed; it is back, or repaired, when its restore does not throw. */
    method AsRepositoryOwner(closes: bool) returns (p: Prepared, oks: seq<bool>, repository: Repository)
      modifies this`k
      ensures repository == RepositoryAt(fate, old(k)) && p.config == OpenConfig(fate, Called(old(k))).1 && |oks| == |p.restores|
      ensures RanInTurn(fate, p.calls, p.restores, oks)
      ensures IsOwnerStep(fate, OpenConfig(fate, Called(old(k))).0.calls, repository, closes, p)
      ensures AllClosed(old(k), k) <==> !StatFails(fate, Called(old(k)))
      ensures k.changed <= old(k).changed + if p.config.Found? && (closes || IsCutOff(p.config.stat, repository)) then {p.config.inode} else {}
      ensures p.config.Found? && closes ==> |oks| > 0 && (oks[0] ==> k.attr(p.config.inode) == BackTo(p.config.stat, repository))
      ensures p.config.Found? && p.ran ==>
                p.atStep.attr(p.config.inode) == if closes then Attr(0x1C0, 0, 0) else BackTo(p.config.stat, repository)
      ensures p.ran ==> |p.restores| > 0 && p.restores[|p.restores| - 1] == Overrides
    {
      p, repository := PrepareOwnerStep(closes);
      OpenConfigIs(fate, Called(old(k)));
      hide OpenConfig, StatFails, IsCutOff, BackTo;
      if |p.restores| > 1 { assert p.restores[1] == p.restores[1..][0]; }
      oks := RestoreAll(p.restores);
      if p.config.Found? { OneClosed(old(k), k); }
    }
  }

  lemma NothingOpened(before: Kernel, after: Kernel)
    requires after.descriptors == before.descriptors && after.closes == before.closes
    ensures AllClosed(before, after)
  {
    assert before.closes + seq(0, i requires i >= 0 => |before.descriptors| + i) == before.closes;
  }

  lemma OneClosed(before: Kernel, after: Kernel)
    requires |after.descriptors| == |before.descriptors| + 1
    ensures AllClosed(before, after) <==> after.closes == before.closes + [|before.descriptors|]
  {
    assert seq(1, i requires i >= 0 => |before.descriptors| + i) == [|before.descriptors|];
  }
}
