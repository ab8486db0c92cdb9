/** When a call is answered by an earlier run, and that the answer is right (events/reconciliation.py:133-202,
    639-706): a run answers as long as its inputs are the very same, and it has audited all of them. */
module Caching {
  import opened Basics
  import opened Matching
  import opened EventTables
  import opened Recompute
  import opened RecomputeSound
  import opened Reconcile
  import opened ReconcileSound
  import opened RunSound
  import opened RunSteps
  import opened Manual
  import opened ManualSound
  import opened Histories
  import opened ClaimDocuments

  // ----- what every committed run has done

  predicate LogRow(t: Tables, r: nat, k: nat, i: int) {
    0 <= i < |t.decisions| && t.decisions[i].run == r && t.decisions[i].candidate == k
  }

  /** Run `r` has handled candidate `k`, once. */
  ghost predicate AuditedOnce(t: Tables, r: nat, k: nat) {
    exists i :: LogRow(t, r, k, i) && forall j :: LogRow(t, r, k, j) ==> j == i
  }

  ghost predicate RunAnswered(t: Tables, r: nat) {
    r < |t.runs| && forall k :: k in t.runs[r].fingerprint.candidates ==> HasSource(t, k) && AuditedOnce(t, r, k)
  }

  ghost predicate RunsAnswered(t: Tables) {
    forall r :: 0 <= r < |t.runs| ==> RunAnswered(t, r)
  }

  lemma HasSourceKept(t: Tables, u: Tables, k: nat)
    requires Keeps(t, u) && HasSource(t, k)
    ensures HasSource(u, k)
  {
    var s :| 0 <= s < |t.sources| && t.sources[s].candidate == k;
    assert SourceKept(t.sources[s], u.sources[s]);
  }

  /** Later rows belong to later runs. */
  lemma AnsweredStill(t: Tables, u: Tables, r: nat)
    requires Keeps(t, u) && RunAnswered(t, r)
    requires forall i :: |t.decisions| <= i < |u.decisions| ==> u.decisions[i].run != r
    ensures RunAnswered(u, r)
  {
    LogsKept(t, u);
    hide Keeps, HasSource;
    forall k | k in u.runs[r].fingerprint.candidates ensures HasSource(u, k) && AuditedOnce(u, r, k) {
      HasSourceKept(t, u, k);
      var i :| LogRow(t, r, k, i) && forall j :: LogRow(t, r, k, j) ==> j == i;
      assert LogRow(u, r, k, i);
      forall j | LogRow(u, r, k, j) ensures j == i {
        assert j < |t.decisions|;
        assert LogRow(t, r, k, j);
      }
    }
  }

  lemma LogsKept(t: Tables, u: Tables)
    requires Keeps(t, u)
    ensures t.decisions <= u.decisions && t.runs <= u.runs
  {
  }

  // ----- the log of a fresh run

  lemma AssignedRuns(lex: Lexicon, t: Tables, course: nat, version: string, ctx: Context, now: int)
    requires Sound(lex, t)
    ensures Refs(t)
    ensures var u := Assigned(lex, t, course, version, ctx, now);
            && u.runs == t.runs + [Run(course, version, FingerprintOf(t, course))]
            && forall k :: k in EffectiveCandidates(t, course) ==> HasSource(u, k)
  {
    hide Sound, Keeps, Refs, Audited, Unaudited, Passed, FirstPass, SecondPass, SourcesWhere, EnsureAll, FingerprintOf,
      HasSource, EffectiveCandidates, NoDuplicates, AllUnaudited, InCourse, Of;
    SoundRefs(lex, t);
    RunStarts(lex, t, course, version, ctx, now);
    var ks, run := EffectiveCandidates(t, course), |t.runs|;
    var begun := OpenRun(t, course, version, FingerprintOf(t, course));
    var ensured := EnsureAll(lex, begun, ks, now);
    EnsureAllPassed(lex, begun, ks, now, course);
    var ordinary, changes := SourcesWhere(lex, ensured, ks, false), SourcesWhere(lex, ensured, ks, true);
    var handled := FirstPassAudits(lex, ensured, ctx, run, ordinary, course);
    var (first, deferred) := FirstPass(lex, ensured, ctx, run, ordinary);
    SecondPassAudits(lex, first, ctx, run, changes + deferred, course);
    var u := SecondPass(lex, first, ctx, run, changes + deferred);
    PassedKeeps(lex, ensured, first, course);
    PassedKeeps(lex, first, u, course);
    forall k | k in ks ensures HasSource(u, k) {
      var i :| 0 <= i < |ks| && ks[i] == k;
      HasSourceKept(ensured, first, k);
      HasSourceKept(first, u, k);
    }
  }

  lemma {:induction false} CandidateAt(ds: seq<Decision>, k: nat)
    requires k in multiset(Candidates(ds))
    ensures exists i :: 0 <= i < |ds| && ds[i].candidate == k
  {
    assert k in Candidates(ds);
  }

  /** The audit of distinct candidates holds one row for each. */
  lemma AuditedAll(lex: Lexicon, t: Tables, u: Tables, run: nat, ks: seq<nat>, k: nat)
    requires Audited(lex, t, u, run, multiset(ks)) && DecisionsOk(u) && k in ks
    ensures AuditedOnce(u, run, k)
  {
    var ds := u.decisions[|t.decisions|..];
    assert k in multiset(ks);
    CandidateAt(ds, k);
    var i :| 0 <= i < |ds| && ds[i].candidate == k;
    assert LogRow(u, run, k, |t.decisions| + i);
    forall j | LogRow(u, run, k, j) ensures j == |t.decisions| + i {}
  }

  /** A fresh run appends itself, and has audited every candidate it was made from. */
  lemma FreshRunAnswered(lex: Lexicon, t: Tables, course: nat, version: string, ctx: Context, now: int)
    requires Committed(lex, t) && Refs(t)
    ensures FreshRun(lex, t, course, version, ctx, now).Some? ==>
              var v := FreshRun(lex, t, course, version, ctx, now).value;
              && v.runs == t.runs + [Run(course, version, FingerprintOf(t, course))]
              && RunAnswered(v, |t.runs|) && (RunsAnswered(t) ==> RunsAnswered(v))
  {
    hide Committed, Sound, Refs, Keeps, Assigned, RecomputeAll, FreshRun, Audited, FingerprintOf, RunAnswered,
      HasSource;
    if FreshRun(lex, t, course, version, ctx, now).Some? {
      var v := FreshRun(lex, t, course, version, ctx, now).value;
      CommittedSound(lex, t);
      FreshRunFacts(lex, t, course, version, ctx, now);
      FreshRunLog(lex, t, course, version, ctx, now);
      CommittedSound(lex, v);
      SoundParts(lex, v);
      NewAnswered(lex, t, v, course, version);
      if RunsAnswered(t) {
        forall r | 0 <= r < |v.runs| ensures RunAnswered(v, r) {
          if r < |t.runs| {
            AuditedRows(lex, t, v, |t.runs|, multiset(EffectiveCandidates(t, course)));
            AnsweredStill(t, v, r);
          }
        }
      }
    }
  }

  lemma AuditedRows(lex: Lexicon, t: Tables, u: Tables, run: nat, handled: multiset<nat>)
    requires Audited(lex, t, u, run, handled)
    ensures forall i :: |t.decisions| <= i < |u.decisions| ==> u.decisions[i].run == run
  {
    var ds := u.decisions[|t.decisions|..];
    forall i | |t.decisions| <= i < |u.decisions| ensures u.decisions[i].run == run {
      assert ds[i - |t.decisions|].run == run;
    }
  }

  lemma FreshRunLog(lex: Lexicon, t: Tables, course: nat, version: string, ctx: Context, now: int)
    requires Sound(lex, t) && Refs(t)
    ensures FreshRun(lex, t, course, version, ctx, now).Some? ==>
              var v := FreshRun(lex, t, course, version, ctx, now).value;
              && v.runs == t.runs + [Run(course, version, FingerprintOf(t, course))]
              && forall k :: k in EffectiveCandidates(t, course) ==> HasSource(v, k)
  {
    hide Sound, Refs, Keeps, Assigned, RecomputeAll, Audited, OnlyCourse, FingerprintOf, HasSource, EffectiveCandidates;
    AssignedFacts(lex, t, course, version, ctx, now);
    AssignedRuns(lex, t, course, version, ctx, now);
    var u := Assigned(lex, t, course, version, ctx, now);
    PassedKeeps(lex, t, u, course);
    var es := EventsUpTo(u, course, |u.events|);
    RecomputeAllSound(lex, u, es);
    var v := RecomputeAll(lex, u, es);
    if v.Some? {
      forall k | k in EffectiveCandidates(t, course) ensures HasSource(v.value, k) {
        HasSourceKept(u, v.value, k);
      }
    }
  }

  lemma NewAnswered(lex: Lexicon, t: Tables, v: Tables, course: nat, version: string)
    requires Refs(t) && DecisionsOk(v) && v.runs == t.runs + [Run(course, version, FingerprintOf(t, course))]
    requires Audited(lex, t, v, |t.runs|, multiset(EffectiveCandidates(t, course)))
    requires forall k :: k in EffectiveCandidates(t, course) ==> HasSource(v, k)
    ensures RunAnswered(v, |t.runs|)
  {
    hide Refs, Audited, DecisionsOk, HasSource, EffectiveCandidates, Effective;
    forall k | k in v.runs[|t.runs|].fingerprint.candidates ensures HasSource(v, k) && AuditedOnce(v, |t.runs|, k) {
      AuditedAll(lex, t, v, |t.runs|, EffectiveCandidates(t, course), k);
    }
  }

  // ----- the inputs of a run

  /** Extraction `x` is effective and of the course. */
  predicate EffectiveIn(t: Tables, course: nat, x: int) {
    0 <= x < |t.extractions| && t.extractions[x].course == course && Effective(t, x)
  }

  /** Candidate `k` of the course comes from an effective extraction. */
  predicate CandidateIn(t: Tables, course: nat, k: int) {
    && 0 <= k < |t.candidates| && t.candidates[k].course == course
    && t.candidates[k].extraction < |t.extractions| && Effective(t, t.candidates[k].extraction)
  }

  predicate DecisionIn(t: Tables, course: nat, m: int) {
    && 0 <= m < |t.manualFields| && t.manualFields[m].active
    && t.manualFields[m].event < |t.events| && t.events[t.manualFields[m].event].course == course
  }

  predicate IdentityIn(t: Tables, course: nat, m: int) {
    && 0 <= m < |t.manualIdentities| && t.manualIdentities[m].active
    && t.manualIdentities[m].event < |t.events| && t.events[t.manualIdentities[m].event].course == course
  }

  /** The course has the same effective evidence and the same decisions in force in both stores. */
  ghost predicate SameInputs(t: Tables, u: Tables, course: nat) {
    && (forall x :: EffectiveIn(t, course, x) <==> EffectiveIn(u, course, x))
    && (forall k :: CandidateIn(t, course, k) <==> CandidateIn(u, course, k))
    && (forall m :: DecisionIn(t, course, m) <==> DecisionIn(u, course, m))
    && (forall m :: IdentityIn(t, course, m) <==> IdentityIn(u, course, m))
  }

  lemma {:induction false} AscendingSame(p: seq<nat>, q: seq<nat>)
    requires forall i, j :: 0 <= i < j < |p| ==> p[i] < p[j]
    requires forall i, j :: 0 <= i < j < |q| ==> q[i] < q[j]
    requires forall x: nat :: x in p <==> x in q
    ensures p == q
    decreases |p|
  {
    if p != [] {
      assert p[0] in q;
      var i :| 0 <= i < |q| && q[i] == p[0];
      assert q[0] in p;
      var j :| 0 <= j < |p| && p[j] == q[0];
      assert p[0] == q[0];
      forall x: nat ensures x in p[1..] <==> x in q[1..] {
        assert x in p <==> x == p[0] || x in p[1..];
        assert x in q <==> x == q[0] || x in q[1..];
      }
      AscendingSame(p[1..], q[1..]);
      assert p == [p[0]] + p[1..] && q == [q[0]] + q[1..];
    } else {
      NonemptyHas(q);
    }
  }

  lemma NonemptyHas(q: seq<nat>)
    ensures q != [] ==> exists x: nat :: x in q
  {
    if q != [] {
      assert q[0] in q;
    }
  }

  lemma FingerprintMembers(t: Tables, course: nat)
    requires Refs(t)
    ensures var f := FingerprintOf(t, course);
            && (forall x: nat :: x in f.extractions <==> EffectiveIn(t, course, x))
            && (forall k: nat :: k in f.candidates <==> CandidateIn(t, course, k))
            && (forall m: nat :: m in f.manualFields <==> DecisionIn(t, course, m))
            && (forall m: nat :: m in f.manualIdentities <==> IdentityIn(t, course, m))
            && forall i, j :: 0 <= i < j < |f.candidates| ==> f.candidates[i] < f.candidates[j]
  {
    hide Effective;
  }

  lemma InputsFrom0(t: Tables, course: nat)
    ensures forall x :: EffectiveIn(t, course, x) || CandidateIn(t, course, x) ==> x >= 0
    ensures forall m :: DecisionIn(t, course, m) || IdentityIn(t, course, m) ==> m >= 0
  {
    hide Effective;
  }

  /** The hashed payload is the same exactly for the same inputs. */
  lemma FingerprintMeans(t: Tables, u: Tables, course: nat)
    requires Refs(t) && Refs(u)
    ensures FingerprintOf(t, course) == FingerprintOf(u, course) <==> SameInputs(t, u, course)
  {
    FingerprintMembers(t, course);
    FingerprintMembers(u, course);
    InputsFrom0(t, course);
    InputsFrom0(u, course);
    hide Refs, FingerprintOf, EffectiveIn, CandidateIn, DecisionIn, IdentityIn;
    var f, g := FingerprintOf(t, course), FingerprintOf(u, course);
    if SameInputs(t, u, course) {
      AscendingSame(f.candidates, g.candidates);
      assert f.extractions == g.extractions && f.manualFields == g.manualFields &&
        f.manualIdentities == g.manualIdentities;
    }
    if f == g {
      forall x: int
        ensures EffectiveIn(t, course, x) <==> EffectiveIn(u, course, x)
        ensures CandidateIn(t, course, x) <==> CandidateIn(u, course, x)
        ensures DecisionIn(t, course, x) <==> DecisionIn(u, course, x)
        ensures IdentityIn(t, course, x) <==> IdentityIn(u, course, x)
      {
        if x >= 0 {
          var n: nat := x;
          assert n in f.extractions <==> n in g.extractions;
          assert n in f.candidates <==> n in g.candidates;
        }
      }
    }
  }

  // ----- every history

  /** Step `j` made run `r`: a call for this course and version that no earlier run answered, and that succeeded. */
  ghost predicate Makes(lex: Lexicon, steps: seq<Step>, j: int, course: nat, version: string) {
    && 0 <= j < |steps| && steps[j].ReconcileCourse? && steps[j].course == course && steps[j].version == version
    && var t := After(lex, steps[..j]);
       Refs(t) && !Cached(t, course, version) && Outcome(lex, t, steps[j]).Some?
  }

  ghost predicate MadeBy(lex: Lexicon, steps: seq<Step>, r: nat, j: int) {
    && r < |After(lex, steps).runs| && var run := After(lex, steps).runs[r];
       && Makes(lex, steps, j, run.course, run.version) && Refs(After(lex, steps[..j]))
       && r == |After(lex, steps[..j]).runs| && run.fingerprint == FingerprintOf(After(lex, steps[..j]), run.course)
  }

  /** What one step does to the table of runs. */
  lemma SteppedRuns(lex: Lexicon, t: Tables, step: Step)
    requires Committed(lex, t) && Refs(t)
    ensures var u := Stepped(lex, t, step);
            && (RunsAnswered(t) ==> RunsAnswered(u))
            && if step.ReconcileCourse? && !Cached(t, step.course, step.version) && Outcome(lex, t, step).Some?
               then u.runs == t.runs + [Run(step.course, step.version, FingerprintOf(t, step.course))]
               else u.runs == t.runs
  {
    hide Committed, Sound, Refs, Keeps, FreshRun, RunAnswered, Recomputed, FieldDecided, Bind, IdentityRecorded, Cached;
    CommittedSound(lex, t);
    SteppedFacts(lex, t, step);
    match step
    case Ingest(x, cs) => SameAnswers(t, Stepped(lex, t, step));
    case ReconcileCourse(course, version, ctx, now) => FreshRunAnswered(lex, t, course, version, ctx, now);
    case DecideField(e, f, choice, at) => FieldRuns(lex, t, e, f, choice, at);
    case DecideIdentity(s, e) => IdentityRuns(lex, t, s, e);
  }

  lemma SameAnswers(t: Tables, u: Tables)
    requires Keeps(t, u) && u.runs == t.runs && u.decisions == t.decisions
    ensures RunsAnswered(t) ==> RunsAnswered(u)
  {
    hide Keeps, RunAnswered;
    if RunsAnswered(t) {
      forall r | 0 <= r < |u.runs| ensures RunAnswered(u, r) { AnsweredStill(t, u, r); }
    }
  }

  lemma FieldRuns(lex: Lexicon, t: Tables, e: nat, f: Field, choice: Choice, at: int)
    requires Sound(lex, t) && Refs(t)
    ensures FieldResolved(lex, t, e, f, choice, at).Some? ==>
              var u := FieldResolved(lex, t, e, f, choice, at).value;
              Keeps(t, u) ==> u.runs == t.runs && (RunsAnswered(t) ==> RunsAnswered(u))
  {
    if FieldResolved(lex, t, e, f, choice, at).Some? {
      var d := FieldDecided(t, e, f, choice, at);
      FieldDecidedSound(lex, t, e, f, choice, at);
      SoundRefs(lex, d);
      RecomputedLog(lex, d, e);
      hide Sound, Refs, Keeps, Recomputed, RunsAnswered;
      if Keeps(t, FieldResolved(lex, t, e, f, choice, at).value) {
        SameAnswers(t, FieldResolved(lex, t, e, f, choice, at).value);
      }
    }
  }

  lemma IdentityRuns(lex: Lexicon, t: Tables, s: nat, e: nat)
    requires Sound(lex, t) && Refs(t)
    ensures IdentityResolved(lex, t, s, e).Some? ==>
              var u := IdentityResolved(lex, t, s, e).value;
              Keeps(t, u) ==> u.runs == t.runs && (RunsAnswered(t) ==> RunsAnswered(u))
  {
    if IdentityResolved(lex, t, s, e).Some? {
      var d := IdentityRecorded(Bind(t, s, e), s, e);
      IdentityRefs(t, s, e);
      RecomputedLog(lex, d, e);
      hide Sound, Refs, Keeps, Recomputed, RunsAnswered;
      if Keeps(t, IdentityResolved(lex, t, s, e).value) {
        SameAnswers(t, IdentityResolved(lex, t, s, e).value);
      }
    }
  }

  lemma {:induction false} HistoryRunsAnswered(lex: Lexicon, steps: seq<Step>)
    ensures RunsAnswered(After(lex, steps))
    decreases |steps|
  {
    hide RunsAnswered, Committed, Stepped, Refs;
    if steps == [] {
      EmptyAnswered();
    } else {
      var n := |steps| - 1;
      HistoryRunsAnswered(lex, steps[..n]);
      CommittedSound(lex, After(lex, steps[..n]));
      SteppedRuns(lex, After(lex, steps[..n]), steps[n]);
    }
  }

  lemma EmptyAnswered()
    ensures RunsAnswered(EMPTY) && EMPTY.runs == []
  {
  }

  lemma MadeLater(lex: Lexicon, steps: seq<Step>, r: nat, j: int)
    requires steps != [] && MadeBy(lex, steps[..|steps| - 1], r, j)
    ensures MadeBy(lex, steps, r, j)
  {
    hide Refs, Cached, Outcome, FingerprintOf, Committed, Keeps, Stepped;
    var n := |steps| - 1;
    assert steps[..n][..j] == steps[..j] && steps[..n][j] == steps[j];
    SteppedFacts(lex, After(lex, steps[..n]), steps[n]);
    LogsKept(After(lex, steps[..n]), After(lex, steps));
  }

  lemma MadeNow(lex: Lexicon, steps: seq<Step>)
    requires steps != []
    ensures var n := |steps| - 1; var t := After(lex, steps[..n]);
            && |After(lex, steps).runs| <= |t.runs| + 1
            && (steps[n].ReconcileCourse? && Makes(lex, steps, n, steps[n].course, steps[n].version) ==>
                 |After(lex, steps).runs| == |t.runs| + 1)
            && (|After(lex, steps).runs| > |t.runs| ==> MadeBy(lex, steps, |t.runs|, n))
  {
    hide Refs, Cached, Outcome, FingerprintOf, Committed, Stepped, RunsAnswered;
    var n := |steps| - 1;
    CommittedSound(lex, After(lex, steps[..n]));
    SteppedRuns(lex, After(lex, steps[..n]), steps[n]);
  }

  lemma {:induction false} HistoryMade(lex: Lexicon, steps: seq<Step>, r: nat)
    ensures r < |After(lex, steps).runs| ==> exists j :: MadeBy(lex, steps, r, j)
    decreases |steps|
  {
    hide After, MadeBy;
    if steps == [] {
      NoRuns(lex);
    } else {
      var n := |steps| - 1;
      HistoryMade(lex, steps[..n], r);
      MadeNow(lex, steps);
      if r < |After(lex, steps[..n]).runs| {
        var j :| MadeBy(lex, steps[..n], r, j);
        MadeLater(lex, steps, r, j);
      }
    }
  }

  lemma NoRuns(lex: Lexicon)
    ensures After(lex, []).runs == []
  {
  }

  lemma {:induction false} MakerIsLogged(lex: Lexicon, steps: seq<Step>, j: nat, course: nat, version: string)
    requires Makes(lex, steps, j, course, version)
    ensures exists r :: MadeBy(lex, steps, r, j)
    decreases |steps|
  {
    var n := |steps| - 1;
    hide After, Refs, Cached, Outcome, MadeBy;
    MadeNow(lex, steps);
    if j < n {
      assert steps[..n][..j] == steps[..j] && steps[..n][j] == steps[j];
      MakerIsLogged(lex, steps[..n], j, course, version);
      var r :| MadeBy(lex, steps[..n], r, j);
      MadeLater(lex, steps, r, j);
    }
  }

  lemma CachedByMaker(lex: Lexicon, steps: seq<Step>, course: nat, version: string) returns (j: int)
    requires Refs(After(lex, steps)) && Cached(After(lex, steps), course, version)
    ensures Makes(lex, steps, j, course, version) && 0 <= j < |steps| &&
      SameInputs(After(lex, steps[..j]), After(lex, steps), course)
  {
    hide After, Refs, SameInputs, FingerprintOf, Makes, Outcome, MadeBy;
    var t := After(lex, steps);
    var r :| 0 <= r < |t.runs| && t.runs[r] == Run(course, version, FingerprintOf(t, course));
    HistoryMade(lex, steps, r);
    j :| MadeBy(lex, steps, r, j);
    MadeFrom(lex, steps, r, j);
    FingerprintMeans(After(lex, steps[..j]), t, course);
  }

  lemma MakerAnswers(lex: Lexicon, steps: seq<Step>, course: nat, version: string, j: int)
    requires Refs(After(lex, steps)) && Makes(lex, steps, j, course, version) && 0 <= j < |steps|
    requires SameInputs(After(lex, steps[..j]), After(lex, steps), course)
    ensures Cached(After(lex, steps), course, version)
  {
    hide After, Refs, SameInputs, FingerprintOf, Outcome, MadeBy;
    var t := After(lex, steps);
    MakerIsLogged(lex, steps, j, course, version);
    var r: nat :| MadeBy(lex, steps, r, j);
    MadeFrom(lex, steps, r, j);
    hide Makes;
    FingerprintMeans(After(lex, steps[..j]), t, course);
    assert t.runs[r] == Run(course, version, FingerprintOf(t, course));
  }

  /** An earlier call for the same course and version that no run before it answered, with the very same inputs. */
  ghost predicate MadeFromSame(lex: Lexicon, steps: seq<Step>, course: nat, version: string, j: int) {
    Makes(lex, steps, j, course, version) && SameInputs(After(lex, steps[..j]), After(lex, steps), course)
  }

  /** After every history, a call is answered from the cache exactly if there is such a call before it. */
  lemma HistoryCache(lex: Lexicon, steps: seq<Step>, course: nat, version: string)
    ensures Refs(After(lex, steps))
    ensures Cached(After(lex, steps), course, version) <==> exists j :: MadeFromSame(lex, steps, course, version, j)
  {
    CommittedSound(lex, After(lex, steps));
    hide After, Refs, SameInputs, Cached, Makes;
    if Cached(After(lex, steps), course, version) {
      var j := CachedByMaker(lex, steps, course, version);
      assert MadeFromSame(lex, steps, course, version, j);
    }
    if j :| MadeFromSame(lex, steps, course, version, j) {
      MakesIn(lex, steps, j, course, version);
      MakerAnswers(lex, steps, course, version, j);
    }
  }

  lemma MakesIn(lex: Lexicon, steps: seq<Step>, j: int, course: nat, version: string)
    requires Makes(lex, steps, j, course, version)
    ensures 0 <= j < |steps| && Refs(After(lex, steps[..j]))
  {
    hide After, Refs, Cached, Outcome;
  }

  lemma MadeFrom(lex: Lexicon, steps: seq<Step>, r: nat, j: int)
    requires MadeBy(lex, steps, r, j)
    ensures r < |After(lex, steps).runs| && 0 <= j < |steps| && steps[j].ReconcileCourse?
    ensures var run := After(lex, steps).runs[r];
            && Refs(After(lex, steps[..j])) && run.fingerprint == FingerprintOf(After(lex, steps[..j]), run.course)
            && run.course == steps[j].course && run.version == steps[j].version
            && Makes(lex, steps, j, run.course, run.version)
  {
    hide After, Refs, Cached, Outcome, FingerprintOf;
  }

  /** Whether it is answered from the cache or not, once a call returns there is a run of the course and the version
      that has handled every current candidate of the course, once; and each has its source. */
  lemma HistoryAnswered(lex: Lexicon, steps: seq<Step>, call: Step)
    requires call.ReconcileCourse?
    ensures var t := After(lex, steps); var v := After(lex, steps + [call]);
            Refs(t) && (Outcome(lex, t, call).Some? ==> exists r :: AnswersCall(v, call.course, call.version, r))
  {
    hide Refs, FingerprintOf, RunsAnswered, FreshRun, Keeps, Committed, Effective;
    var t, v := After(lex, steps), After(lex, steps + [call]);
    assert (steps + [call])[..|steps|] == steps;
    CommittedSound(lex, t);
    HistoryRunsAnswered(lex, steps);
    HistoryRunsAnswered(lex, steps + [call]);
    SteppedRuns(lex, t, call);
    if Outcome(lex, t, call).Some? {
      CommittedSound(lex, v);
      RunEvidence(lex, t, call);
      FingerprintMembers(t, call.course);
      var r := AnsweringRun(t, v, call);
      CallAnswered(t, v, call.course, call.version, r);
    }
  }

  ghost predicate AnswersCall(v: Tables, course: nat, version: string, r: nat) {
    && r < |v.runs| && v.runs[r].course == course && v.runs[r].version == version
    && forall k: nat :: CandidateIn(v, course, k) ==> HasSource(v, k) && AuditedOnce(v, r, k)
  }

  lemma AnsweringRun(t: Tables, v: Tables, call: Step) returns (r: nat)
    requires Refs(t) && call.ReconcileCourse?
    requires if Cached(t, call.course, call.version) then v.runs == t.runs else
               v.runs == t.runs + [Run(call.course, call.version, FingerprintOf(t, call.course))]
    ensures r < |v.runs| && v.runs[r] == Run(call.course, call.version, FingerprintOf(t, call.course))
  {
    hide Refs, FingerprintOf;
    if Cached(t, call.course, call.version) {
      r :| r < |v.runs| && v.runs[r] == Run(call.course, call.version, FingerprintOf(t, call.course));
    } else {
      r := |t.runs|;
    }
  }

  lemma CallAnswered(t: Tables, v: Tables, course: nat, version: string, r: nat)
    requires Refs(t) && r < |v.runs| && v.runs[r] == Run(course, version, FingerprintOf(t, course)) && RunsAnswered(v)
    requires forall k: nat :: k in FingerprintOf(t, course).candidates <==> CandidateIn(t, course, k)
    requires v.extractions == t.extractions && v.candidates == t.candidates
    ensures AnswersCall(v, course, version, r)
  {
    hide Refs, FingerprintOf, HasSource, AuditedOnce;
    assert RunAnswered(v, r);
    forall k: nat | CandidateIn(v, course, k) ensures CandidateIn(t, course, k) { SameEffective(t, v, course, k); }
  }

  lemma SameEffective(t: Tables, v: Tables, course: nat, k: nat)
    requires v.extractions == t.extractions && v.candidates == t.candidates
    ensures CandidateIn(v, course, k) <==> CandidateIn(t, course, k)
  {
  }

  lemma RunEvidence(lex: Lexicon, t: Tables, call: Step)
    requires Committed(lex, t) && Refs(t) && call.ReconcileCourse?
    ensures var v := Stepped(lex, t, call); v.extractions == t.extractions && v.candidates == t.candidates
  {
    hide Committed, Sound, Refs, Keeps, FreshRun, Confined, RowsConfined, Cached;
    CommittedSound(lex, t);
    var (course, version, ctx, now) := (call.course, call.version, call.ctx, call.now);
    RunConfined(lex, t, course, version, ctx, now);
    if FreshRun(lex, t, course, version, ctx, now).Some? {
      var v := FreshRun(lex, t, course, version, ctx, now).value;
      FreshRunFacts(lex, t, course, version, ctx, now);
      ConfinedEvidence(t, v, course);
    }
  }

  lemma ConfinedEvidence(t: Tables, u: Tables, course: nat)
    requires Refs(t) && Refs(u) && Confined(t, u, course)
    ensures u.extractions == t.extractions
  {
    hide Refs, ActiveClaim;
  }

  /** Evidence or a decision of the course that the store did not hold before. */
  ghost predicate NewsFor(t: Tables, v: Tables, course: nat) {
    || (exists x :: x >= |t.extractions| && EffectiveIn(v, course, x))
    || (exists k :: k >= |t.candidates| && CandidateIn(v, course, k))
    || (exists m :: m >= |t.manualFields| && DecisionIn(v, course, m))
    || (exists m :: m >= |t.manualIdentities| && IdentityIn(v, course, m))
  }

  lemma NewsIsNoSameInput(t: Tables, u: Tables, v: Tables, course: nat)
    requires Keeps(t, u) && NewsFor(u, v, course)
    ensures !SameInputs(t, v, course)
  {
    hide Effective;
    if x :| x >= |u.extractions| && EffectiveIn(v, course, x) {
      assert !EffectiveIn(t, course, x);
    } else if k :| k >= |u.candidates| && CandidateIn(v, course, k) {
      assert !CandidateIn(t, course, k);
    } else if m :| m >= |u.manualFields| && DecisionIn(v, course, m) {
      assert !DecisionIn(t, course, m);
    } else {
      var m :| m >= |u.manualIdentities| && IdentityIn(v, course, m);
      assert !IdentityIn(t, course, m);
    }
  }

  /** News is never answered by a call made before it. */
  lemma HistoryNews(lex: Lexicon, steps: seq<Step>, n: nat, course: nat, version: string, j: int)
    requires n <= |steps| && NewsFor(After(lex, steps[..n]), After(lex, steps), course) && j <= n
    ensures !MadeFromSame(lex, steps, course, version, j)
  {
    hide After, SameInputs, NewsFor, Keeps;
    if Makes(lex, steps, j, course, version) {
      MakesIn(lex, steps, j, course, version);
      assert steps[..n][..j] == steps[..j];
      HistoryOnlyAppends(lex, steps[..n], j);
      NewsIsNoSameInput(After(lex, steps[..j]), After(lex, steps[..n]), After(lex, steps), course);
    }
  }

  lemma NewestIsEffective(t: Tables, x: Extraction)
    requires x.usable
    ensures EffectiveIn(t.(extractions := t.extractions + [x]), x.course, |t.extractions|)
  {
  }

  /** So a call after an accepted, usable extraction of the course is not answered from the cache, nor is one after a
      decision on an event of the course that is in force once its call returns. */
  lemma NewsIsNotCached(lex: Lexicon, steps: seq<Step>, step: Step, course: nat, version: string)
    ensures var t, v := After(lex, steps), After(lex, steps + [step]);
            && Refs(v)
            && (step.Ingest? && Accepts(t, step.candidates) && step.extraction.usable &&
                 step.extraction.course == course ==>
                 !Cached(v, course, version))
            && (step.DecideField? && DecisionIn(v, course, |t.manualFields|) ==> !Cached(v, course, version))
            && (step.DecideIdentity? && IdentityIn(v, course, |t.manualIdentities|) ==> !Cached(v, course, version))
  {
    var n, all := |steps|, steps + [step];
    var t, v := After(lex, steps), After(lex, all);
    assert all[..n] == steps;
    HistoryCache(lex, all, course, version);
    if step.Ingest? && Accepts(t, step.candidates) && step.extraction.usable && step.extraction.course == course {
      NewestIsEffective(t, step.extraction);
      IngestedExtractions(t, step.extraction, step.candidates);
      assert EffectiveIn(v, course,
        |t.extractions|) by { SameEffectiveIn(t.(extractions := v.extractions), v, course, |t.extractions|); }
    }
    hide After, Refs, Cached, Makes, SameInputs, EffectiveIn, DecisionIn, IdentityIn, CandidateIn;
    if !step.ReconcileCourse? && NewsFor(t, v, course) {
      forall j ensures !MadeFromSame(lex, all, course, version, j) {
        if j <= n {
          HistoryNews(lex, all, n, course, version, j);
        } else {
          MakesBefore(lex, all, course, version, j);
        }
      }
    }
  }

  lemma MakesBefore(lex: Lexicon, steps: seq<Step>, course: nat, version: string, j: int)
    ensures MadeFromSame(lex, steps, course, version, j) ==> j < |steps|
  {
    hide After, Refs, Cached, Outcome, SameInputs;
  }

  lemma IngestedExtractions(t: Tables, x: Extraction, cs: seq<Candidate>)
    requires Accepts(t, cs)
    ensures Ingested(t, x, cs).extractions == t.extractions + [x]
  {
  }

  lemma SameEffectiveIn(t: Tables, v: Tables, course: nat, x: int)
    requires v.extractions == t.extractions
    ensures EffectiveIn(v, course, x) <==> EffectiveIn(t, course, x)
  {
  }
}
