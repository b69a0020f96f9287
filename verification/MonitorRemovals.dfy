/** The removal of heartbeat records changes no judgement: a superseded record never decides, and whatever part of the
    forgotten records of an environment is removed in order, the newest of its records stays until all are gone. */
module MonitorRemovals {
  import opened Seqs
  import opened Sorting
  import opened MonitorRules
  import opened MonitorDecision
  import opened MonitorLocality

  // ---- Superseded records ----

  predicate LimitsWithinAWeek(i: Input) {
    forall r :: r in i.records ==> r.limitSeconds * 1000 <= RECORD_MAX_AGE_MS
  }

  /** The input without the records that its decision calls superseded. */
  function WithoutSuperseded(i: Input): Input {
    i.(records := Filter(NotSuperseded(i), i.records))
  }

  function NotSuperseded(i: Input): Record -> bool { (r: Record) => !IsSuperseded(i, See(i.now, i.state)(r)) }

  function Stays(i: Input): Seen -> bool { (s: Seen) => !IsSuperseded(i, s) }

  lemma RecordsLeft(i: Input, e: string)
    ensures RecordsOf(WithoutSuperseded(i), e) == Filter(Stays(i), RecordsOf(i, e))
  {
    MapFilter(See(i.now, i.state), NotSuperseded(i), Stays(i), i.records);
    FilterTwice(OfEnvironment(e), Stays(i), Clamped(i));
  }

  /** The record that a fold picks stays picked when records that it did not pick are dropped. */
  lemma {:induction false} NewestSurvives(p: Seen -> bool, rs: seq<Seen>)
    requires rs != [] && p(NewestOf(rs))
    ensures Filter(p, rs) != [] && NewestOf(Filter(p, rs)) == NewestOf(rs)
  {
    if |rs| == 1 {
      FilterAll(p, rs);
    } else {
      var init, last := rs[..|rs| - 1], rs[|rs| - 1];
      var best, kept := NewestOf(init), Filter(p, init);
      assert (kept + [last])[..|kept|] == kept;
      if Outranks(last, best) {
        if kept != [] {
          NewestIsGreatest(init);
          NewestIsGreatest(kept);
          assert NewestOf(kept) in init;
        }
      } else {
        NewestSurvives(p, init);
      }
    }
  }

  lemma {:induction false} NewestIsGreatest(rs: seq<Seen>)
    requires rs != []
    ensures NewestOf(rs) in rs
    ensures forall s :: s in rs ==> !Outranks(s, NewestOf(rs))
  {
    if |rs| > 1 {
      var init, last := rs[..|rs| - 1], rs[|rs| - 1];
      NewestIsGreatest(init);
      assert forall s :: s in rs ==> s in init || s == last;
    }
  }

  lemma DecisiveSurvives(i: Input, e: string)
    requires LimitsWithinAWeek(i) && RecordsOf(i, e) != []
    ensures var left := Filter(Stays(i), RecordsOf(i, e));
            left != [] && Decisive(i.now, left) == Decisive(i.now, RecordsOf(i, e))
  {
    var rs := RecordsOf(i, e);
    var newest := NewestOf(rs);
    NewestIsGreatest(rs);
    assert newest.written.environmentId == e;
    NewestSurvives(Stays(i), rs);
    var p := LiveOther(i.now, newest.written.source);
    forall s | s in rs && p(s)
      ensures Stays(i)(s)
    {
      SeenIsOfRecord(i, s);
    }
    FilterTwice(p, Stays(i), rs);
    FilterAll(Stays(i), Filter(p, rs));
  }

  lemma SeenIsOfRecord(i: Input, s: Seen)
    requires s in Clamped(i)
    ensures s.written in i.records && s == See(i.now, i.state)(s.written)
  {
  }

  lemma VerdictWithoutSuperseded(i: Input, e: string)
    requires LimitsWithinAWeek(i)
    ensures VerdictOf(WithoutSuperseded(i), e) == VerdictOf(i, e)
  {
    hide Decisive, InGrace, VerdictOf, Clamped, IsSuperseded, LimitsWithinAWeek;
    RecordsLeft(i, e);
    var rs := RecordsOf(i, e);
    hide RecordsOf;
    GraceWithoutSuperseded(i);
    if rs == [] { FilterNone(Stays(i), rs); } else { DecisiveSurvives(i, e); }
    SameVerdict(i, WithoutSuperseded(i), e);
  }

  lemma GraceWithoutSuperseded(i: Input)
    ensures InGrace(WithoutSuperseded(i)) == InGrace(i)
  {
  }

  lemma SameVerdict(i: Input, j: Input, e: string)
    requires j.now == i.now && InGrace(j) == InGrace(i)
    requires RecordsOf(i, e) == [] <==> RecordsOf(j, e) == []
    requires RecordsOf(i, e) != [] ==> Decisive(j.now, RecordsOf(j, e)) == Decisive(i.now, RecordsOf(i, e))
    ensures VerdictOf(j, e) == VerdictOf(i, e)
  {
    hide RecordsOf, Decisive, InGrace;
  }

  lemma {:induction false} StopsAgree(i: Input, j: Input, environments: seq<string>)
    requires i.containers == j.containers && i.now == j.now
    requires forall e :: VerdictOf(i, e) == VerdictOf(j, e)
    ensures Stops(i, environments) == Stops(j, environments)
  {
    hide VerdictOf, DevContainerFirst, RunningOf;
    if environments != [] {
      StopsAgree(i, j, environments[..|environments| - 1]);
    }
  }

  /** With limits of at most seven days (the checked records have at most one day), dropping every superseded record
      changes no stop and no keep. */
  lemma SupersededDecidesNothing(i: Input)
    requires LimitsWithinAWeek(i)
    ensures Decide(WithoutSuperseded(i)).stop == Decide(i).stop
    ensures Decide(WithoutSuperseded(i)).kept == Decide(i).kept
  {
    var j := WithoutSuperseded(i);
    forall e {
      VerdictWithoutSuperseded(i, e);
    }
    var environments := RunningEnvironments(i.containers);
    StopsAgree(i, j, environments);
    FilterAgrees(IsKept(i), IsKept(j), environments);
    hide RecordsOf, Stops, RunningEnvironments, Superseded, Forgotten, NextState, IsActive, VerdictOf;
  }

  // ---- Any removed prefix of the forgotten records, with all superseded ones ----

  /** One record per computer and environment: the file names of the volume. */
  ghost predicate OneRecordEach(records: seq<Record>) {
    forall j, k :: 0 <= j < k < |records| ==>
      records[j].source != records[k].source || records[j].environmentId != records[k].environmentId
  }

  /** The records of `e` to forget, in the order of their removal. */
  function ForgottenOf(i: Input, e: string): seq<Seen> { Filter(OfEnvironment(e), Forgotten(i)) }

  /** What is left of the records of `e` after the first `n` of those to forget and all superseded ones are removed. */
  ghost predicate IsLeft(i: Input, e: string, n: nat, s: Seen)
    requires n <= |ForgottenOf(i, e)|
  {
    s in RecordsOf(i, e) && s !in ForgottenOf(i, e)[..n] && !IsSuperseded(i, s)
  }

  ghost predicate GreatestOf(rs: seq<Seen>, g: Seen) {
    g in rs && forall s :: s in rs ==> !Outranks(s, g)
  }

  lemma ForgottenFacts(i: Input, e: string)
    ensures forall s :: s in ForgottenOf(i, e) <==> s in RecordsOf(i, e) && IsForgotten(i, s)
    ensures Sorted(RemovedBefore(), ForgottenOf(i, e))
    ensures OneRecordEach(i.records) ==> NoDuplicates(ForgottenOf(i, e))
  {
    var mine := Filter(OfEnvironment(e), Filter(ForgetTest(i), Clamped(i)));
    RemovalOrder();
    FilterSort(RemovedBefore(), OfEnvironment(e), Filter(ForgetTest(i), Clamped(i)));
    SortSorted(RemovedBefore(), mine);
    SortMembers(RemovedBefore(), mine);
    SortMultiset(RemovedBefore(), mine);
    if OneRecordEach(i.records) {
      assert NoDuplicates(Clamped(i));
      FilterNoDuplicates(ForgetTest(i), Clamped(i));
      FilterNoDuplicates(OfEnvironment(e), Filter(ForgetTest(i), Clamped(i)));
      NoDuplicatesByMultiset(mine, ForgottenOf(i, e));
    }
  }

  /** A greatest record of an environment that is forgotten shares its rank with every record that stays. */
  lemma OnlyAllAreForgotten(i: Input, e: string, g: Seen, s: Seen)
    requires GreatestOf(RecordsOf(i, e), g) && IsForgotten(i, g)
    requires s in RecordsOf(i, e) && !IsForgotten(i, s)
    ensures !IsSuperseded(i, s) && !Outranks(g, s)
  {
    if IsOld(i, s.written) {
      var other :| other in Clamped(i) && Blocks(i, other, s);
      assert other in RecordsOf(i, e);
      assert Blocks(i, other, g);
    } else {
      assert !Blocks(i, s, g);
    }
  }

  /** Removing all superseded records and any prefix of the forgotten ones of an environment, in the given order, leaves a
      record of the greatest rank (time as the rules see it, then keepRunning) stored, unless every record of the
      environment is to be forgotten and is removed. */
  lemma NewestStays(i: Input, e: string, n: nat)
    requires OneRecordEach(i.records) && RecordsOf(i, e) != [] && n <= |ForgottenOf(i, e)|
    ensures || (exists g :: GreatestOf(RecordsOf(i, e), g) && IsLeft(i, e, n, g))
            || (n == |ForgottenOf(i, e)| && forall s :: s in RecordsOf(i, e) ==> IsForgotten(i, s))
  {
    var rs, gone := RecordsOf(i, e), ForgottenOf(i, e);
    var g := NewestOf(rs);
    NewestIsGreatest(rs);
    ForgottenFacts(i, e);
    assert !IsSuperseded(i, g) by {
      assert g.written.environmentId == e;
    }
    hide Clamped, RecordsOf, ForgottenOf, IsForgotten, IsSuperseded, NewestOf;
    if !IsForgotten(i, g) {
      assert IsLeft(i, e, n, g);
    } else if s :| s in rs && !IsForgotten(i, s) {
      OnlyAllAreForgotten(i, e, g, s);
      assert GreatestOf(rs, s);
      assert IsLeft(i, e, n, s);
    } else if n < |gone| {
      var last := gone[|gone| - 1];
      LastIsGreatest(gone, g);
      assert GreatestOf(rs, last);
      assert last !in gone[..n];
      ForgottenAreNotSuperseded(i, last);
      assert IsLeft(i, e, n, last);
    }
  }

  lemma ForgottenAreNotSuperseded(i: Input, s: Seen)
    requires IsForgotten(i, s)
    ensures !IsSuperseded(i, s)
  {
  }

  lemma LastIsGreatest(gone: seq<Seen>, g: Seen)
    requires Sorted(RemovedBefore(), gone) && g in gone
    ensures !Outranks(g, gone[|gone| - 1])
  {
    var k :| 0 <= k < |gone| && gone[k] == g;
    if k < |gone| - 1 {
      assert !RemovedBefore()(gone[|gone| - 1], gone[k]);
    }
  }

  // ---- What is removed in the end ----

  /** Old records do not stay for ever. Of an environment without containers, all of whose records are older than seven days
      (or that far ahead), every record is to be forgotten; of one with containers, a record without a keep that old goes when
      a newer one exists, unless another computer's keep is not newer than it. */
  lemma OldRecordsGo(i: Input, r: Record)
    requires r in i.records
    ensures !Present(i, r.environmentId)
            && (forall other :: other in i.records && other.environmentId == r.environmentId ==> Abs(i.now - other.at) > RECORD_MAX_AGE_MS)
            ==> r in Decide(i).forget
    ensures Present(i, r.environmentId) && !r.keepRunning && !HeldByKeep(i, r)
            && i.now - r.at > RECORD_MAX_AGE_MS
            && (exists other :: other in i.records && other.environmentId == r.environmentId && r.at < other.at <= i.now)
            ==> r in Decide(i).superseded
  {
    var s := See(i.now, i.state)(r);
    var k :| 0 <= k < |i.records| && i.records[k] == r;
    assert Clamped(i)[k] == s;
    hide Stops, RunningEnvironments, NextState, IsActive;
    if !Present(i, r.environmentId)
       && (forall other :: other in i.records && other.environmentId == r.environmentId ==> Abs(i.now - other.at) > RECORD_MAX_AGE_MS) {
      assert IsForgotten(i, s);
      SortMembers(RemovedBefore(), Filter(ForgetTest(i), Clamped(i)));
      WrittenIn(Forgotten(i), s);
    }
    if Present(i, r.environmentId) && !r.keepRunning && !HeldByKeep(i, r) && i.now - r.at > RECORD_MAX_AGE_MS {
      if other :| other in i.records && other.environmentId == r.environmentId && r.at < other.at <= i.now {
        var j :| 0 <= j < |i.records| && i.records[j] == other;
        assert Clamped(i)[j] == Seen(other, other.at);
        assert Seen(other, other.at) in RecordsOf(i, r.environmentId);
        assert IsSuperseded(i, s);
        WrittenIn(Superseded(i), s);
      }
    }
  }

  lemma WrittenIn(seen: seq<Seen>, s: Seen)
    requires s in seen
    ensures s.written in Map(Written(), seen)
  {
    var k :| 0 <= k < |seen| && seen[k] == s;
    assert Map(Written(), seen)[k] == s.written;
  }
}
