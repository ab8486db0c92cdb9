/** A whole reconciliation run: invariants, exactly one audit row per effective candidate, and events
    created exactly by CREATED rows (events/reconciliation.py:162-202, 825-965). */
module RunSound {
  import opened Basics
  import opened Matching
  import opened EventTables
  import opened Recompute
  import opened RecomputeFacts
  import opened RecomputeSound
  import opened Reconcile
  import opened ReconcileSound
  import opened Titles

  // ----- the audit log of a stretch of a run

  /** The events that decisions say were created, in order. */
  function CreatedIn(ds: seq<Decision>): seq<nat> {
    if ds == [] then []
    else
      var d := ds[|ds| - 1];
      CreatedIn(ds[..|ds| - 1]) + (if d.verdict.Created? && d.event.Some? then [d.event.value] else [])
  }

  lemma {:induction false} CreatedInAppend(ds: seq<Decision>, es: seq<Decision>)
    ensures CreatedIn(ds + es) == CreatedIn(ds) + CreatedIn(es)
  {
    if es == [] {
      assert ds + es == ds;
    } else {
      var n := |es| - 1;
      CreatedInAppend(ds, es[..n]);
      assert (ds + es)[..|ds + es| - 1] == ds + es[..n];
    }
  }

  function Range(a: nat, b: nat): seq<nat>
    requires a <= b
  {
    seq(b - a, i requires 0 <= i => a + i)
  }

  /** Between `t` and `u` run `run` audited exactly the candidates `handled`, once each as often as they
      occur there; the events created are those its CREATED rows name; no change candidate created one. */
  ghost predicate Audited(lex: Lexicon, t: Tables, u: Tables, run: nat, handled: multiset<nat>) {
    && t.candidates == u.candidates && t.decisions <= u.decisions && |t.events| <= |u.events|
    && var ds := u.decisions[|t.decisions|..];
       && multiset(Candidates(ds)) == handled
       && (forall i :: 0 <= i < |ds| ==> ds[i].run == run)
       && CreatedIn(ds) == Range(|t.events|, |u.events|)
       && (forall i :: 0 <= i < |ds| && ds[i].verdict.Created? ==>
             ds[i].candidate < |t.candidates| && lex.classify(t.candidates[ds[i].candidate].wording) == NoChange)
  }

  lemma AuditedCompose(lex: Lexicon, t: Tables, u: Tables, v: Tables, run: nat, g: multiset<nat>, h: multiset<nat>)
    requires Audited(lex, t, u, run, g) && Audited(lex, u, v, run, h)
    ensures Audited(lex, t, v, run, g + h)
  {
    var ds, es := u.decisions[|t.decisions|..], v.decisions[|u.decisions|..];
    assert v.decisions[|t.decisions|..] == ds + es;
    CandidatesAppend(ds, es);
    assert multiset(Candidates(ds) + Candidates(es)) == g + h;
    CreatedInAppend(ds, es);
    assert Range(|t.events|, |u.events|) + Range(|u.events|, |v.events|) == Range(|t.events|, |v.events|);
  }

  lemma StillUnaudited(lex: Lexicon, t: Tables, u: Tables, run: nat, handled: multiset<nat>, k: nat)
    requires Audited(lex, t, u, run, handled) && Unaudited(t, run, k) && k !in handled
    ensures Unaudited(u, run, k)
  {
    var ds := u.decisions[|t.decisions|..];
    forall i | 0 <= i < |u.decisions| && u.decisions[i].run == run ensures u.decisions[i].candidate != k {
      if i >= |t.decisions| {
        assert Candidates(ds)[i - |t.decisions|] in multiset(Candidates(ds));
      }
    }
  }

  /** Claims change state only with an event of the course, and nothing is projected yet. */
  ghost predicate OnlyCourse(t: Tables, u: Tables, course: nat) {
    && Keeps(t, u) && u.projections == t.projections
    && forall c :: 0 <= c < |t.claims| && u.claims[c].state != t.claims[c].state ==>
         u.claims[c].event.Some? && u.claims[c].event.value < |u.events| &&
           u.events[u.claims[c].event.value].course == course
  }

  /** What any stretch of a run before recomputation keeps. */
  ghost predicate Passed(lex: Lexicon, t: Tables, u: Tables, course: nat) {
    && Sound(lex, u) && OnlyCourse(t, u, course)
    && u.manualIdentities == t.manualIdentities && u.manualFields == t.manualFields && u.conflicts == t.conflicts
    && (t.manualIdentities == [] && TitlesShared(lex, t) ==> TitlesShared(lex, u))
    && (Refs(t) && Claimed(t) ==> Claimed(u))
  }

  lemma PassedKeeps(lex: Lexicon, t: Tables, u: Tables, course: nat)
    requires Passed(lex, t, u, course)
    ensures Sound(lex, u) && Keeps(t, u) && Refs(u)
  {
  }

  lemma PassedReflexive(lex: Lexicon, t: Tables, course: nat)
    requires Sound(lex, t)
    ensures Passed(lex, t, t, course)
  {
    hide Sound, Claimed;
  }

  lemma PassedTransitive(lex: Lexicon, t: Tables, u: Tables, v: Tables, course: nat)
    requires Passed(lex, t, u, course) && Passed(lex, u, v, course)
    ensures Passed(lex, t, v, course)
  {
    hide Sound, TitlesShared, Claimed, Refs;
    PassedKeeps(lex, t, u, course);
    KeepsTransitive(t, u, v);
  }

  function Handled(t: Tables, s: nat, treatment: Treatment): multiset<nat>
    requires s < |t.sources|
  {
    if treatment.Defer? then multiset{} else multiset{t.sources[s].candidate}
  }

  lemma TreatedOnlyCourse(lex: Lexicon, t: Tables, ctx: Context, run: nat, s: nat, defer: bool)
    requires Sound(lex, t) && s < |t.sources| && run < |t.runs| && Unaudited(t, run, t.sources[s].candidate)
    ensures OnlyCourse(t, Treated(t, run, s, TreatmentOf(lex, t, ctx, s, defer)), t.sources[s].course)
  {
    TreatedSound(lex, t, ctx, run, s, defer);
    TreatmentFacts(lex, t, ctx, s, defer);
    hide Sound, Keeps, TreatmentOf, Refs, Plausible;
  }

  lemma TreatedPassed(lex: Lexicon, t: Tables, ctx: Context, run: nat, s: nat, defer: bool)
    requires Sound(lex, t) && s < |t.sources| && run < |t.runs| && Unaudited(t, run, t.sources[s].candidate)
    ensures var treatment := TreatmentOf(lex, t, ctx, s, defer);
            var u := Treated(t, run, s, treatment);
            && Passed(lex, t, u, t.sources[s].course) && Audited(lex, t, u, run, Handled(t, s, treatment))
            && u.runs == t.runs
  {
    hide Sound, Keeps, TreatmentOf, Refs, Treated, OnlyCourse, TitlesShared, Audited, Claimed;
    SoundRefs(lex, t);
    TreatedSound(lex, t, ctx, run, s, defer);
    SoundRefs(lex, Treated(t, run, s, TreatmentOf(lex, t, ctx, s, defer)));
    TreatedCounts(t, run, s, TreatmentOf(lex, t, ctx, s, defer));
    if Claimed(t) {
      ClaimedKept(t, Treated(t, run, s, TreatmentOf(lex, t, ctx, s, defer)));
    }
    TreatedOnlyCourse(lex, t, ctx, run, s, defer);
    TreatedAudited(lex, t, ctx, run, s, defer);
    if t.manualIdentities == [] && TitlesShared(lex, t) {
      TreatedTitles(lex, t, ctx, run, s, defer);
    }
  }

  lemma TreatedCounts(t: Tables, run: nat, s: nat, treatment: Treatment)
    requires Refs(t) && s < |t.sources|
    ensures |Treated(t, run, s, treatment).sources| == |t.sources| &&
      |Treated(t, run, s, treatment).claims| == |t.claims|
  {
  }

  lemma TreatedAudited(lex: Lexicon, t: Tables, ctx: Context, run: nat, s: nat, defer: bool)
    requires Sound(lex, t) && s < |t.sources| && run < |t.runs| && Unaudited(t, run, t.sources[s].candidate)
    ensures var treatment := TreatmentOf(lex, t, ctx, s, defer);
            Audited(lex, t, Treated(t, run, s, treatment), run, Handled(t, s, treatment))
  {
    hide Sound, Keeps, TreatmentOf, Refs, Treated;
    SoundRefs(lex, t);
    TreatedSound(lex, t, ctx, run, s, defer);
    TreatmentFacts(lex, t, ctx, s, defer);
    SourceMirrors(lex, t, s);
    var treatment := TreatmentOf(lex, t, ctx, s, defer);
    var u := Treated(t, run, s, treatment);
    var row := AuditRow(t, run, s, treatment);
    assert u.decisions[|t.decisions|..] == row;
    assert CreatedIn(row) == if treatment.Found? then [|t.events|] else [] by {
      if !treatment.Defer? {
        assert row[..|row| - 1] == [];
      }
    }
    assert Candidates(row) == if treatment.Defer? then [] else [t.sources[s].candidate];
  }

  lemma SourceMirrors(lex: Lexicon, t: Tables, s: nat)
    requires Sound(lex, t) && s < |t.sources|
    ensures Refs(t) && t.sources[s].candidate < |t.candidates| && SourceOk(lex, t, s)
    ensures t.sources[s].change == lex.classify(t.candidates[t.sources[s].candidate].wording)
  {
  }

  /** The candidates of sources. */
  function Of(t: Tables, ss: seq<nat>): seq<nat>
    requires InRange(t, ss)
  {
    seq(|ss|, i requires 0 <= i < |ss| => t.sources[ss[i]].candidate)
  }

  lemma OfKept(t: Tables, u: Tables, ss: seq<nat>)
    requires InRange(t, ss) && Keeps(t, u)
    ensures InRange(u, ss) && Of(u, ss) == Of(t, ss)
  {
  }

  lemma OfPrefix(t: Tables, ss: seq<nat>)
    requires InRange(t, ss) && ss != []
    ensures var n := |ss| - 1; InRange(t, ss[..n]) && Of(t, ss) == Of(t, ss[..n]) + [t.sources[ss[n]].candidate]
  {
  }

  ghost predicate AllUnaudited(t: Tables, run: nat, ks: seq<nat>) {
    forall i :: 0 <= i < |ks| ==> Unaudited(t, run, ks[i])
  }

  lemma NotYet(ks: seq<nat>, k: nat, handled: multiset<nat>)
    requires NoDuplicates(ks + [k]) && handled <= multiset(ks)
    ensures k !in handled
  {
    assert forall i :: 0 <= i < |ks| ==> (ks + [k])[i] == ks[i];
    assert (ks + [k])[|ks|] == k;
    assert k !in ks;
  }

  /** What a pass needs of its list holds of the list without its last source. */
  lemma PassPrefix(t: Tables, run: nat, ss: seq<nat>)
    requires InRange(t, ss) && ss != [] && NoDuplicates(Of(t, ss)) && AllUnaudited(t, run, Of(t, ss))
    ensures var n := |ss| - 1; var ks := Of(t, ss[..n]);
            && Of(t, ss) == ks + [t.sources[ss[n]].candidate]
            && NoDuplicates(ks) && AllUnaudited(t, run, ks) && Unaudited(t, run, t.sources[ss[n]].candidate)
  {
    hide Unaudited;
    var n := |ss| - 1;
    OfPrefix(t, ss);
    assert forall i :: 0 <= i < n ==> Of(t, ss)[i] == Of(t, ss[..n])[i];
    assert Unaudited(t, run, Of(t, ss)[n]);
  }

  ghost predicate InCourse(t: Tables, ss: seq<nat>, course: nat) {
    forall i :: 0 <= i < |ss| ==> ss[i] < |t.sources| && t.sources[ss[i]].course == course
  }

  /** A pass so far: `handled` candidates are audited, the `deferred` sources stand for the rest of `ks`. */
  ghost predicate PassedSoFar(lex: Lexicon, t: Tables, u: Tables, run: nat, course: nat, handled: multiset<nat>,
                              deferred: seq<nat>, ks: seq<nat>) {
    && Passed(lex, t, u, course) && Audited(lex, t, u, run, handled) && u.runs == t.runs
    && InCourse(t, deferred, course) && handled + multiset(Of(t, deferred)) == multiset(ks)
  }

  lemma NothingPassed(lex: Lexicon, t: Tables, run: nat, course: nat)
    requires Sound(lex, t)
    ensures PassedSoFar(lex, t, t, run, course, multiset{}, [], [])
  {
    hide Sound, Passed;
    PassedReflexive(lex, t, course);
    assert t.decisions[|t.decisions|..] == [];
  }

  /** One more source handled or deferred. */
  lemma PassedOneMore(lex: Lexicon, t: Tables, before: Tables, ctx: Context, run: nat, s: nat, course: nat,
                      handled: multiset<nat>, deferred: seq<nat>, ks: seq<nat>)
    requires PassedSoFar(lex, t, before, run, course, handled, deferred, ks) && run < |t.runs|
    requires s < |t.sources| && t.sources[s].course == course
    requires Unaudited(t, run, t.sources[s].candidate) && NoDuplicates(ks + [t.sources[s].candidate])
    ensures Refs(before) && s < |before.sources|
    ensures var treatment := TreatmentOf(lex, before, ctx, s, true);
            PassedSoFar(lex, t, Treated(before, run, s, treatment), run, course,
              handled + Handled(before, s, treatment),
                        if treatment.Defer? then deferred + [s] else deferred, ks + [t.sources[s].candidate])
  {
    hide Sound, Keeps, TreatmentOf, Refs, Treated, Unaudited, Passed, NoDuplicates, Audited;
    PassedKeeps(lex, t, before, course);
    NotYet(ks, t.sources[s].candidate, handled);
    SourceKeeps(t, before, s);
    StillUnaudited(lex, t, before, run, handled, t.sources[s].candidate);
    TreatedPassed(lex, before, ctx, run, s, true);
    var treatment := TreatmentOf(lex, before, ctx, s, true);
    var u := Treated(before, run, s, treatment);
    AuditedCompose(lex, t, before, u, run, handled, Handled(before, s, treatment));
    PassedTransitive(lex, t, before, u, course);
    OfPrefix(t, deferred + [s]);
    assert (deferred + [s])[..|deferred|] == deferred;
  }

  lemma {:induction false} FirstPassAudits(lex: Lexicon, t: Tables, ctx: Context, run: nat, ss: seq<nat>, course: nat)
    returns (handled: multiset<nat>)
    requires Sound(lex, t) && run < |t.runs| && InCourse(t, ss, course)
    requires NoDuplicates(Of(t, ss)) && AllUnaudited(t, run, Of(t, ss))
    ensures Refs(t)
    ensures var (u, deferred) := FirstPass(lex, t, ctx, run, ss);
            && Passed(lex, t, u, course) && Audited(lex, t, u, run, handled) && u.runs == t.runs
            && InCourse(t, deferred, course) && handled + multiset(Of(t, deferred)) == multiset(Of(t, ss))
    decreases |ss|
  {
    hide Sound, TreatmentOf, Refs, Treated, Unaudited, Passed, NoDuplicates, AllUnaudited, Audited, Handled;
    SoundRefs(lex, t);
    if ss == [] {
      NothingPassed(lex, t, run, course);
      handled := multiset{};
    } else {
      var n := |ss| - 1;
      PassPrefix(t, run, ss);
      var before, deferred := FirstPass(lex, t, ctx, run, ss[..n]).0, FirstPass(lex, t, ctx, run, ss[..n]).1;
      handled := FirstPassAudits(lex, t, ctx, run, ss[..n], course);
      PassedOneMore(lex, t, before, ctx, run, ss[n], course, handled, deferred, Of(t, ss[..n]));
      handled := handled + Handled(before, ss[n], TreatmentOf(lex, before, ctx, ss[n], true));
    }
  }

  lemma SourceKeeps(t: Tables, u: Tables, s: nat)
    requires Keeps(t, u) && s < |t.sources|
    ensures s < |u.sources| && u.sources[s].candidate == t.sources[s].candidate &&
      u.sources[s].course == t.sources[s].course
  {
  }

  lemma {:induction false} SecondPassAudits(lex: Lexicon, t: Tables, ctx: Context, run: nat, ss: seq<nat>, course: nat)
    requires Sound(lex, t) && run < |t.runs| && InCourse(t, ss, course)
    requires NoDuplicates(Of(t, ss)) && AllUnaudited(t, run, Of(t, ss))
    ensures Refs(t)
    ensures var u := SecondPass(lex, t, ctx, run, ss);
            Passed(lex, t, u, course) && Audited(lex, t, u, run, multiset(Of(t, ss))) && u.runs == t.runs
    decreases |ss|
  {
    hide Sound, Keeps, TreatmentOf, Refs, Treated, Unaudited, Passed, NoDuplicates;
    SoundRefs(lex, t);
    if ss == [] {
      PassedReflexive(lex, t, course);
    } else {
      var n := |ss| - 1;
      var s, ks := ss[n], Of(t, ss[..n]);
      PassPrefix(t, run, ss);
      var before := SecondPass(lex, t, ctx, run, ss[..n]);
      SecondPassAudits(lex, t, ctx, run, ss[..n], course);
      PassedKeeps(lex, t, before, course);
      NotYet(ks, t.sources[s].candidate, multiset(ks));
      SourceKeeps(t, before, s);
      StillUnaudited(lex, t, before, run, multiset(ks), t.sources[s].candidate);
      TreatedPassed(lex, before, ctx, run, s, false);
      var treatment := TreatmentOf(lex, before, ctx, s, false);
      TreatmentFacts(lex, before, ctx, s, false);
      var u := Treated(before, run, s, treatment);
      AuditedCompose(lex, t, before, u, run, multiset(ks), Handled(before, s, treatment));
      PassedTransitive(lex, t, before, u, course);
    }
  }

  // ----- sources of the candidates

  lemma EnsurePassed(lex: Lexicon, t: Tables, k: nat, now: int, course: nat)
    requires Sound(lex, t) && k < |t.candidates|
    ensures Passed(lex, t, EnsureSource(lex, t, k, now), course)
  {
    hide Sound, TitlesShared, Refs, Claimed, Keeps;
    SoundRefs(lex, t);
    EnsureSound(lex, t, k, now);
    EnsureKeeps(lex, t, k, now);
    SoundRefs(lex, EnsureSource(lex, t, k, now));
    if TitlesShared(lex, t) {
      EnsureTitles(lex, t, k, now);
    }
    if Claimed(t) {
      EnsureClaimed(lex, t, k, now);
    }
  }

  lemma {:induction false} EnsureAllPassed(lex: Lexicon, t: Tables, ks: seq<nat>, now: int, course: nat)
    requires Sound(lex, t) && Known(t, ks)
    ensures Refs(t)
    ensures var u := EnsureAll(lex, t, ks, now);
            Passed(lex, t, u, course) && u.runs == t.runs && u.decisions == t.decisions && u.events == t.events
    decreases |ks|
  {
    hide Sound, Refs, Passed;
    SoundRefs(lex, t);
    if ks == [] {
      PassedReflexive(lex, t, course);
    } else {
      var n := |ks| - 1;
      EnsureAllPassed(lex, t, ks[..n], now, course);
      var before := EnsureAll(lex, t, ks[..n], now);
      PassedKeeps(lex, t, before, course);
      EnsurePassed(lex, before, ks[n], now, course);
      PassedTransitive(lex, t, before, EnsureSource(lex, before, ks[n], now), course);
    }
  }

  /** The two lists of sources together are the sources of the candidates. */
  lemma {:induction false} SplitSources(lex: Lexicon, t: Tables, ks: seq<nat>)
    requires Known(t, ks) && forall i :: 0 <= i < |ks| ==> HasSource(t, ks[i])
    ensures multiset(Of(t, SourcesWhere(lex, t, ks, false))) + multiset(Of(t, SourcesWhere(lex, t, ks, true))) ==
      multiset(ks)
    decreases |ks|
  {
    hide SourcesWhere, Of, HasSource, SourceOf;
    if ks == [] {
      WhereNone(lex, t);
    } else {
      var n := |ks| - 1;
      SplitSources(lex, t, ks[..n]);
      assert ks == ks[..n] + [ks[n]];
      WhereLast(lex, t, ks, true);
      WhereLast(lex, t, ks, false);
    }
  }

  lemma WhereNone(lex: Lexicon, t: Tables)
    ensures forall changed :: SourcesWhere(lex, t, [], changed) == [] && Of(t, SourcesWhere(lex, t, [], changed)) == []
  {
  }

  lemma WhereLast(lex: Lexicon, t: Tables, ks: seq<nat>, changed: bool)
    requires ks != [] && Known(t, ks) && forall i :: 0 <= i < |ks| ==> HasSource(t, ks[i])
    ensures var n := |ks| - 1; var before := SourcesWhere(lex, t, ks[..n], changed);
            Of(t, SourcesWhere(lex, t, ks, changed)) ==
            Of(t, before) + (if (lex.classify(t.candidates[ks[n]].wording) != NoChange) == changed then [ks[n]] else [])
  {
    hide HasSource;
  }

  // ----- lists without repetition as multisets

  ghost predicate Once(m: multiset<nat>) {
    forall x :: m[x] <= 1
  }

  lemma {:induction false} OnceIsNoDuplicates(q: seq<nat>)
    ensures Once(multiset(q)) <==> NoDuplicates(q)
  {
    if Once(multiset(q)) {
      forall i, j | 0 <= i < j < |q| ensures q[i] != q[j] {
        assert q == q[..j] + q[j..] && q[..j][i] == q[i] && q[j..][0] == q[j];
        assert q[i] in multiset(q[..j]) && q[j] in multiset(q[j..]);
        assert multiset(q) == multiset(q[..j]) + multiset(q[j..]);
        assert multiset(q)[q[i]] == multiset(q[..j])[q[i]] + multiset(q[j..])[q[i]];
      }
    } else {
      var x :| multiset(q)[x] > 1;
      Twice(q, x);
    }
  }

  lemma {:induction false} Twice(q: seq<nat>, x: nat)
    requires multiset(q)[x] > 1
    ensures !NoDuplicates(q)
  {
    var i :| 0 <= i < |q| && q[i] == x;
    assert q == q[..i] + [x] + q[i + 1..];
    assert x in q[..i] || x in q[i + 1..];
  }

  // ----- recomputing all events

  lemma {:induction false} RecomputeAllSound(lex: Lexicon, t: Tables, es: seq<nat>)
    requires Sound(lex, t) && forall i :: 0 <= i < |es| ==> es[i] < |t.events|
    ensures Refs(t)
    ensures var u := RecomputeAll(lex, t, es);
            u.Some? ==>
              && Sound(lex, u.value) && Keeps(t, u.value)
              && u.value.decisions == t.decisions && u.value.runs == t.runs && u.value.candidates == t.candidates &&
                   |u.value.events| == |t.events|
    decreases |es|
  {
    hide Sound, Keeps, Refs, Recomputed;
    SoundRefs(lex, t);
    if es == [] {
      KeepsReflexive(t);
    } else {
      var n := |es| - 1;
      RecomputeAllSound(lex, t, es[..n]);
      var before := RecomputeAll(lex, t, es[..n]);
      if before.Some? && Recomputed(lex, before.value, es[n]).Some? {
        var after := Recomputed(lex, before.value, es[n]).value;
        RecomputedSound(lex, before.value, es[n]);
        KeepsTransitive(t, before.value, after);
        RecomputedLog(lex, before.value, es[n]);
        RecomputedRefs(lex, before.value, es[n]);
      }
    }
  }

  lemma RecomputedLog(lex: Lexicon, t: Tables, e: nat)
    requires Refs(t) && e < |t.events| && Recomputed(lex, t, e).Some?
    ensures var v := Recomputed(lex, t, e).value;
            v.decisions == t.decisions && v.runs == t.runs && v.candidates == t.candidates &&
              v.extractions == t.extractions
  {
    hide Refs, StateOf, ProjectionsAfter, NewConflicts, NewEdges, EventRow, Blocked, ExpiredField, ExpiredIdentity;
  }

  /** After recomputing a list of events every one of them is settled: later rounds do not disturb earlier ones. */
  lemma {:induction false} RecomputeAllSettles(lex: Lexicon, t: Tables, es: seq<nat>)
    requires Sound(lex, t) && (forall i :: 0 <= i < |es| ==> es[i] < |t.events|) && NoDuplicates(es)
    ensures Refs(t)
    ensures var u := RecomputeAll(lex, t, es);
            u.Some? ==> Refs(u.value) && forall i :: 0 <= i < |es| ==>
              es[i] < |u.value.events| && EventSettled(u.value, es[i])
    decreases |es|
  {
    hide Sound, Keeps, Refs, Recomputed, EventSettled;
    SoundRefs(lex, t);
    if es != [] {
      var n := |es| - 1;
      RecomputeAllSettles(lex, t, es[..n]);
      RecomputeAllSound(lex, t, es[..n]);
      var before := RecomputeAll(lex, t, es[..n]);
      if before.Some? && Recomputed(lex, before.value, es[n]).Some? {
        RecomputedRefs(lex, before.value, es[n]);
        RecomputedSettles(lex, before.value, es[n]);
        forall i | 0 <= i < n ensures EventSettled(Recomputed(lex, before.value, es[n]).value, es[i]) {
          assert es[..n][i] == es[i];
          RecomputedKeepsSettled(lex, before.value, es[n], es[i]);
        }
      }
    }
  }

  /** Projections that show accepted claims, of all events outside a list. */
  ghost predicate AcceptedExcept(t: Tables, es: seq<nat>)
    requires Refs(t) && ProjectionsOk(t)
  {
    forall d, f :: (d, f) in t.projections && d !in es ==> ShowsAccepted(t, d, f)
  }

  lemma {:induction false} RecomputeAllAccepted(lex: Lexicon, t: Tables, es: seq<nat>, todo: seq<nat>)
    requires Sound(lex, t) && (forall i :: 0 <= i < |es| ==> es[i] < |t.events|)
    requires AcceptedExcept(t, es + todo)
    ensures Refs(t)
    ensures var u := RecomputeAll(lex, t, es);
            u.Some? ==> Refs(u.value) && ProjectionsOk(u.value) && AcceptedExcept(u.value, todo)
    decreases |es|
  {
    hide Sound, Keeps, Refs, Recomputed, ShowsAccepted, ProjectionsOk;
    SoundParts(lex, t);
    if es == [] {
      assert es + todo == todo;
    } else {
      var n := |es| - 1;
      assert es + todo == es[..n] + ([es[n]] + todo);
      RecomputeAllAccepted(lex, t, es[..n], [es[n]] + todo);
      RecomputeAllSound(lex, t, es[..n]);
      var before := RecomputeAll(lex, t, es[..n]);
      if before.Some? && Recomputed(lex, before.value, es[n]).Some? {
        var u := Recomputed(lex, before.value, es[n]).value;
        RecomputedSound(lex, before.value, es[n]);
        SoundParts(lex, u);
        forall d, f | (d, f) in u.projections && d !in todo ensures ShowsAccepted(u, d, f) {
          if d != es[n] {
            ProjectionElsewhere(lex, before.value, es[n], d, f);
          }
          RecomputedAccepted(lex, before.value, es[n], d, f);
        }
      }
    }
  }

  // ----- the run

  lemma SourcesInCourse(lex: Lexicon, t: Tables, ks: seq<nat>, changed: bool, course: nat)
    requires Sound(lex, t) && Known(t, ks) && forall i :: 0 <= i < |ks| ==>
      HasSource(t, ks[i]) && t.candidates[ks[i]].course == course
    ensures InCourse(t, SourcesWhere(lex, t, ks, changed), course)
    decreases |ks|
  {
    if ks != [] {
      var n := |ks| - 1;
      SourcesInCourse(lex, t, ks[..n], changed, course);
      SourceMirrors(lex, t, SourceOf(t, ks[n]));
    }
    hide Sound;
  }

  lemma OnceParts(a: multiset<nat>, b: multiset<nat>, c: multiset<nat>)
    requires a + b == c && Once(c)
    ensures Once(a) && Once(b) && forall x :: x in a ==> x !in b
  {
    forall x ensures a[x] + b[x] == c[x] { assert (a + b)[x] == a[x] + b[x]; }
  }

  lemma SortedOnce(ks: seq<nat>)
    requires forall i, j :: 0 <= i < j < |ks| ==> ks[i] < ks[j]
    ensures Once(multiset(ks))
  {
    OnceIsNoDuplicates(ks);
  }

  lemma OfAppend(t: Tables, ss: seq<nat>, rs: seq<nat>)
    requires InRange(t, ss) && InRange(t, rs)
    ensures InRange(t, ss + rs) && Of(t, ss + rs) == Of(t, ss) + Of(t, rs)
  {
  }

  lemma AllUnauditedLater(lex: Lexicon, t: Tables, u: Tables, run: nat, handled: multiset<nat>, ks: seq<nat>)
    requires Audited(lex, t, u, run, handled) && (forall k :: Unaudited(t, run, k)) && forall k :: k in multiset(ks) ==>
      k !in handled
    ensures AllUnaudited(u, run, ks)
  {
    hide Audited, Unaudited;
    forall i | 0 <= i < |ks| ensures Unaudited(u, run, ks[i]) {
      assert ks[i] in multiset(ks);
      StillUnaudited(lex, t, u, run, handled, ks[i]);
    }
  }

  /** A pass may handle these sources: each belongs to the course, none twice, none audited yet. */
  ghost predicate Ready(t: Tables, run: nat, ss: seq<nat>, course: nat) {
    run < |t.runs| && InCourse(t, ss, course) && NoDuplicates(Of(t, ss)) && AllUnaudited(t, run, Of(t, ss))
  }

  /** Both passes find their sources ready, and together they handle each candidate once. */
  lemma PassesReady(lex: Lexicon, t: Tables, ctx: Context, run: nat, ks: seq<nat>, course: nat)
    returns (handled: multiset<nat>)
    requires Sound(lex, t) && run < |t.runs| && (forall k :: Unaudited(t, run, k))
    requires Known(t, ks) && forall i :: 0 <= i < |ks| ==> HasSource(t, ks[i]) && t.candidates[ks[i]].course == course
    requires forall i, j :: 0 <= i < j < |ks| ==> ks[i] < ks[j]
    ensures Refs(t)
    ensures var ordinary, changes := SourcesWhere(lex, t, ks, false), SourcesWhere(lex, t, ks, true);
            var (first, deferred) := FirstPass(lex, t, ctx, run, ordinary);
            && Ready(t, run, ordinary, course) && Sound(lex, first) && InRange(first, changes + deferred)
            && Ready(first, run, changes + deferred, course)
            && Passed(lex, t, first, course) && Audited(lex, t, first, run, handled)
            && handled + multiset(Of(first, changes + deferred)) == multiset(ks)
  {
    hide Sound, Keeps, Refs, Audited, Unaudited, Passed, FirstPass, SecondPass, SourcesWhere;
    SoundRefs(lex, t);
    var ordinary, changes := SourcesWhere(lex, t, ks, false), SourcesWhere(lex, t, ks, true);
    SplitSources(lex, t, ks);
    SortedOnce(ks);
    OnceParts(multiset(Of(t, ordinary)), multiset(Of(t, changes)), multiset(ks));
    OnceIsNoDuplicates(Of(t, ordinary));
    SourcesInCourse(lex, t, ks, false, course);
    SourcesInCourse(lex, t, ks, true, course);
    var (first, deferred) := FirstPass(lex, t, ctx, run, ordinary);
    handled := FirstPassAudits(lex, t, ctx, run, ordinary, course);
    PassedKeeps(lex, t, first, course);
    var rest := changes + deferred;
    OfAppend(t, changes, deferred);
    OfKept(t, first, rest);
    assert handled + multiset(Of(t, rest)) == multiset(ks) by {
      assert multiset(Of(t, rest)) == multiset(Of(t, changes)) + multiset(Of(t, deferred));
    }
    OnceParts(handled, multiset(Of(t, rest)), multiset(ks));
    OnceIsNoDuplicates(Of(t, rest));
    AllUnauditedLater(lex, t, first, run, handled, Of(t, rest));
    InCourseKept(t, first, rest, course);
  }

  /** Both passes together: every candidate in the list is audited exactly once. */
  lemma PassesAudit(lex: Lexicon, t: Tables, ctx: Context, run: nat, ks: seq<nat>, course: nat)
    requires Sound(lex, t) && run < |t.runs| && (forall k :: Unaudited(t, run, k))
    requires Known(t, ks) && forall i :: 0 <= i < |ks| ==> HasSource(t, ks[i]) && t.candidates[ks[i]].course == course
    requires forall i, j :: 0 <= i < j < |ks| ==> ks[i] < ks[j]
    ensures Refs(t)
    ensures var (first, deferred) := FirstPass(lex, t, ctx, run, SourcesWhere(lex, t, ks, false));
            var u := SecondPass(lex, first, ctx, run, SourcesWhere(lex, t, ks, true) + deferred);
            Passed(lex, t, u, course) && Audited(lex, t, u, run, multiset(ks))
  {
    hide Sound, Keeps, Refs, Audited, Unaudited, Passed, FirstPass, SecondPass, SourcesWhere;
    var handled := PassesReady(lex, t, ctx, run, ks, course);
    var (first, deferred) := FirstPass(lex, t, ctx, run, SourcesWhere(lex, t, ks, false));
    var rest := SourcesWhere(lex, t, ks, true) + deferred;
    SecondPassAudits(lex, first, ctx, run, rest, course);
    var u := SecondPass(lex, first, ctx, run, rest);
    AuditedCompose(lex, t, first, u, run, handled, multiset(Of(first, rest)));
    PassedTransitive(lex, t, first, u, course);
  }

  lemma InCourseKept(t: Tables, u: Tables, ss: seq<nat>, course: nat)
    requires Keeps(t, u) && InCourse(t, ss, course)
    ensures InCourse(u, ss, course)
  {
  }

  lemma OpenRunPassed(lex: Lexicon, t: Tables, course: nat, version: string, fingerprint: Fingerprint)
    requires Sound(lex, t)
    ensures Passed(lex, t, OpenRun(t, course, version, fingerprint), course)
  {
    hide Sound, TitlesShared, Refs, Claimed, Keeps;
    SoundRefs(lex, t);
    OpenRunSound(lex, t, course, version, fingerprint);
    SoundRefs(lex, OpenRun(t, course, version, fingerprint));
    if TitlesShared(lex, t) {
      TitlesByClaims(lex, t, OpenRun(t, course, version, fingerprint));
    }
    if Claimed(t) {
      ClaimedKept(t, OpenRun(t, course, version, fingerprint));
    }
  }

  /** The part of a run before recomputation. */
  lemma AssignedFacts(lex: Lexicon, t: Tables, course: nat, version: string, ctx: Context, now: int)
    requires Sound(lex, t)
    ensures Refs(t)
    ensures var u := Assigned(lex, t, course, version, ctx, now);
            Passed(lex, t, u, course) && Audited(lex, t, u, |t.runs|, multiset(EffectiveCandidates(t, course)))
  {
    hide Sound, Keeps, Refs, Audited, Unaudited, Passed, FirstPass, SecondPass, SourcesWhere, EnsureAll;
    SoundRefs(lex, t);
    var ks := EffectiveCandidates(t, course);
    var begun := OpenRun(t, course, version, FingerprintOf(t, course));
    OpenRunSound(lex, t, course, version, FingerprintOf(t, course));
    OpenRunPassed(lex, t, course, version, FingerprintOf(t, course));
    SoundRefs(lex, begun);
    EffectiveInCourse(t, course);
    var ensured := EnsureAll(lex, begun, ks, now);
    EnsureAllPassed(lex, begun, ks, now, course);
    PassedKeeps(lex, begun, ensured, course);
    forall k ensures Unaudited(ensured, |t.runs|, k) {
      UnauditedByLog(begun, ensured, |t.runs|, k);
    }
    PassesAudit(lex, ensured, ctx, |t.runs|, ks, course);
    var u := Assigned(lex, t, course, version, ctx, now);
    PassedTransitive(lex, t, begun, ensured, course);
    PassedTransitive(lex, t, ensured, u, course);
    AuditedFrom(lex, t, ensured, u, |t.runs|, multiset(ks));
  }

  lemma UnauditedByLog(t: Tables, u: Tables, run: nat, k: nat)
    requires Unaudited(t, run, k) && u.decisions == t.decisions
    ensures Unaudited(u, run, k)
  {
  }

  lemma EffectiveInCourse(t: Tables, course: nat)
    requires Refs(t)
    ensures var ks := EffectiveCandidates(t, course);
            Known(t, ks) && forall i :: 0 <= i < |ks| ==> t.candidates[ks[i]].course == course
  {
    var ks := EffectiveCandidates(t, course);
    forall i | 0 <= i < |ks| ensures t.candidates[ks[i]].course == course { assert ks[i] in ks; }
  }

  lemma AuditedFrom(lex: Lexicon, t: Tables, t': Tables, u: Tables, run: nat, handled: multiset<nat>)
    requires Audited(lex, t', u, run, handled)
    requires t'.candidates == t.candidates && t'.decisions == t.decisions && t'.events == t.events
    ensures Audited(lex, t, u, run, handled)
  {
  }

  lemma AcceptedOutsideCourse(lex: Lexicon, t: Tables, u: Tables, course: nat)
    requires Committed(lex, t) && Sound(lex, u) && OnlyCourse(t, u, course)
    ensures AcceptedExcept(u, EventsUpTo(u, course, |u.events|))
  {
    SoundParts(lex, t);
    SoundParts(lex, u);
    var es := EventsUpTo(u, course, |u.events|);
    forall d, f | (d, f) in u.projections && d !in es ensures ShowsAccepted(u, d, f) {
      assert ProjectionOk(t, d, f) && ProjectionOk(u, d, f);
    }
    hide Refs, Sound;
  }

  /** A run that does not raise commits a sound state, rewrites no evidence, settles every event of the course,
      and audits every effective candidate exactly once. */
  lemma FreshRunFacts(lex: Lexicon, t: Tables, course: nat, version: string, ctx: Context, now: int)
    requires Committed(lex, t) && FreshRun(lex, t, course, version, ctx, now).Some?
    ensures var u := FreshRun(lex, t, course, version, ctx, now).value;
            && Committed(lex, u) && Keeps(t, u)
            && Audited(lex, t, u, |t.runs|, multiset(EffectiveCandidates(t, course)))
            && (forall e :: 0 <= e < |u.events| && u.events[e].course == course ==> EventSettled(u, e))
  {
    hide Sound, Keeps, Refs, Audited, Assigned, RecomputeAll, EventSettled, OnlyCourse, ShowsAccepted, ProjectionsOk,
      TitlesShared;
    SoundParts(lex, t);
    AssignedFacts(lex, t, course, version, ctx, now);
    var u := Assigned(lex, t, course, version, ctx, now);
    PassedKeeps(lex, t, u, course);
    var es := EventsUpTo(u, course, |u.events|);
    SoundParts(lex, u);
    AcceptedOutsideCourse(lex, t, u, course);
    RecomputeAllSound(lex, u, es);
    RecomputeAllSettles(lex, u, es);
    assert es + [] == es;
    RecomputeAllAccepted(lex, u, es, []);
    var v := FreshRun(lex, t, course, version, ctx, now).value;
    SoundParts(lex, v);
    KeepsTransitive(t, u, v);
    AuditedTo(lex, t, u, v, |t.runs|, multiset(EffectiveCandidates(t, course)));
    CoursesKept(u, v);
    NothingExcepted(v);
    forall e | 0 <= e < |v.events| && v.events[e].course == course ensures EventSettled(v, e) {
      var i :| 0 <= i < |es| && es[i] == e;
    }
  }

  lemma NothingExcepted(t: Tables)
    requires Refs(t) && ProjectionsOk(t) && AcceptedExcept(t, [])
    ensures ProjectedAccepted(t)
  {
    hide Refs;
    forall d, f | (d, f) in t.projections
      ensures ProjectionOk(t, d, f) && t.claims[t.projections[(d, f)].claim].state.Accepted?
    {
      assert ShowsAccepted(t, d, f);
    }
  }

  lemma CoursesKept(t: Tables, u: Tables)
    requires Keeps(t, u)
    ensures |t.events| <= |u.events| && forall e :: 0 <= e < |t.events| ==> u.events[e].course == t.events[e].course
  {
  }

  lemma AuditedTo(lex: Lexicon, t: Tables, u: Tables, v: Tables, run: nat, handled: multiset<nat>)
    requires Audited(lex, t, u, run, handled) && Keeps(u, v)
    requires v.decisions == u.decisions && |v.events| == |u.events| && v.candidates == u.candidates
    ensures Audited(lex, t, v, run, handled)
  {
  }
}
