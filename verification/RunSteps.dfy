/** What the loops of `reconcile_course` rely on at each turn (events/reconciliation.py:162-202). */
module RunSteps {
  import opened Basics
  import opened Matching
  import opened EventTables
  import opened Recompute
  import opened RecomputeSound
  import opened Reconcile
  import opened ReconcileSound
  import opened RunSound

  lemma ReadyPrefix(t: Tables, run: nat, ss: seq<nat>, course: nat, i: nat)
    requires Ready(t, run, ss, course) && i <= |ss|
    ensures Ready(t, run, ss[..i], course)
  {
    hide Unaudited;
    var q := ss[..i];
    assert Of(t, q) == Of(t, ss)[..i];
  }

  lemma ReadyNext(t: Tables, run: nat, ss: seq<nat>, course: nat, i: nat)
    requires Ready(t, run, ss, course) && i < |ss|
    ensures Ready(t, run, ss[..i], course) && Unaudited(t, run, t.sources[ss[i]].candidate)
    ensures forall handled: multiset<nat> :: handled <= multiset(Of(t, ss[..i])) ==>
      t.sources[ss[i]].candidate !in handled
  {
    ReadyPrefix(t, run, ss, course, i);
    ReadyPrefix(t, run, ss, course, i + 1);
    hide Unaudited, InCourse, NoDuplicates;
    var q := ss[..i + 1];
    assert q[..i] == ss[..i];
    PassPrefix(t, run, q);
    forall handled: multiset<nat> | handled <= multiset(Of(t, ss[..i])) ensures t.sources[ss[i]].candidate !in handled {
      NotYet(Of(t, ss[..i]), t.sources[ss[i]].candidate, handled);
    }
  }

  lemma ReadyInRange(t: Tables, run: nat, ss: seq<nat>, course: nat)
    requires Ready(t, run, ss, course)
    ensures InRange(t, ss) && forall i :: 0 <= i <= |ss| ==> InRange(t, ss[..i])
  {
  }

  /** One turn of the first pass. */
  lemma FirstPassStep(lex: Lexicon, t: Tables, ctx: Context, run: nat, ss: seq<nat>, course: nat, i: nat)
    requires Sound(lex, t) && Ready(t, run, ss, course) && i < |ss|
    ensures Refs(t)
    ensures var (before, deferred) := FirstPass(lex, t, ctx, run, ss[..i]);
            && Sound(lex, before) && run < |before.runs| && ss[i] < |before.sources|
            && Unaudited(before, run, before.sources[ss[i]].candidate)
            && var treatment := TreatmentOf(lex, before, ctx, ss[i], true);
               FirstPass(lex, t, ctx, run, ss[..i + 1]) ==
               (Treated(before, run, ss[i], treatment), if treatment.Defer? then deferred + [ss[i]] else deferred)
  {
    hide Sound, Keeps, TreatmentOf, Refs, Treated, Unaudited, Passed, NoDuplicates, Audited, Of;
    SoundRefs(lex, t);
    ReadyNext(t, run, ss, course, i);
    var handled := FirstPassAudits(lex, t, ctx, run, ss[..i], course);
    var before := FirstPass(lex, t, ctx, run, ss[..i]).0;
    PassedKeeps(lex, t, before, course);
    SourceKeeps(t, before, ss[i]);
    StillUnaudited(lex, t, before, run, handled, t.sources[ss[i]].candidate);
    assert ss[..i + 1][..i] == ss[..i];
  }

  /** One turn of the second pass. */
  lemma SecondPassStep(lex: Lexicon, t: Tables, ctx: Context, run: nat, ss: seq<nat>, course: nat, i: nat)
    requires Sound(lex, t) && Ready(t, run, ss, course) && i < |ss|
    ensures Refs(t)
    ensures var before := SecondPass(lex, t, ctx, run, ss[..i]);
            && Sound(lex, before) && run < |before.runs| && ss[i] < |before.sources|
            && Unaudited(before, run, before.sources[ss[i]].candidate)
            && SecondPass(lex, t, ctx, run, ss[..i + 1]) ==
                 Treated(before, run, ss[i], TreatmentOf(lex, before, ctx, ss[i], false))
  {
    hide Sound, Keeps, TreatmentOf, Refs, Treated, Unaudited, Passed, NoDuplicates, Audited, Of;
    SoundRefs(lex, t);
    ReadyNext(t, run, ss, course, i);
    SecondPassAudits(lex, t, ctx, run, ss[..i], course);
    var before := SecondPass(lex, t, ctx, run, ss[..i]);
    PassedKeeps(lex, t, before, course);
    SourceKeeps(t, before, ss[i]);
    StillUnaudited(lex, t, before, run, multiset(Of(t, ss[..i])), t.sources[ss[i]].candidate);
    assert ss[..i + 1][..i] == ss[..i];
  }

  /** One more source and its claims. */
  lemma EnsureStep(lex: Lexicon, t: Tables, ks: seq<nat>, now: int, i: nat)
    requires Sound(lex, t) && Known(t, ks) && i < |ks|
    ensures Refs(t)
    ensures var before := EnsureAll(lex, t, ks[..i], now);
            && Sound(lex, before) && before.candidates == t.candidates
            && EnsureAll(lex, t, ks[..i + 1], now) == EnsureSource(lex, before, ks[i], now)
  {
    hide Sound, Refs, EnsureSource, Passed;
    SoundRefs(lex, t);
    EnsureAllPassed(lex, t, ks[..i], now, 0);
    PassedKeeps(lex, t, EnsureAll(lex, t, ks[..i], now), 0);
    assert ks[..i + 1][..i] == ks[..i];
  }

  /** A candidate has one source. */
  lemma SourceUnique(lex: Lexicon, t: Tables, k: nat, s: nat)
    requires Sound(lex, t) && HasSource(t, k) && s < |t.sources| && t.sources[s].candidate == k
    ensures SourceOf(t, k) == s
  {
  }

  lemma SourcesWhereStep(lex: Lexicon, t: Tables, ks: seq<nat>, changed: bool, i: nat)
    requires Known(t, ks) && (forall j :: 0 <= j < |ks| ==> HasSource(t, ks[j])) && i < |ks|
    ensures SourcesWhere(lex, t, ks[..i + 1], changed) ==
            SourcesWhere(lex, t, ks[..i], changed) +
            (if (lex.classify(t.candidates[ks[i]].wording) != NoChange) == changed then [SourceOf(t, ks[i])] else [])
  {
    hide HasSource, SourceOf;
    assert ks[..i + 1][..i] == ks[..i];
  }

  /** One more event recomputed. */
  lemma RecomputeAllStep(lex: Lexicon, t: Tables, es: seq<nat>, i: nat)
    requires Sound(lex, t) && (forall j :: 0 <= j < |es| ==> es[j] < |t.events|) && i < |es|
    ensures Refs(t)
    ensures var before := RecomputeAll(lex, t, es[..i]);
            before.Some? ==>
              && Sound(lex, before.value) && Refs(before.value) && es[i] < |before.value.events|
              && RecomputeAll(lex, t, es[..i + 1]) == Recomputed(lex, before.value, es[i])
  {
    hide Sound, Refs, Recomputed, Keeps;
    SoundRefs(lex, t);
    RecomputeAllSound(lex, t, es[..i]);
    assert es[..i + 1][..i] == es[..i];
  }

  lemma {:induction false} RecomputeAllStuck(lex: Lexicon, t: Tables, es: seq<nat>, i: nat)
    requires Refs(t) && (forall j :: 0 <= j < |es| ==> es[j] < |t.events|) && i <= |es|
    requires RecomputeAll(lex, t, es[..i]).None?
    ensures RecomputeAll(lex, t, es).None?
    decreases |es|
  {
    hide Refs, Recomputed;
    if i < |es| {
      var n := |es| - 1;
      assert es[..n][..i] == es[..i];
      RecomputeAllStuck(lex, t, es[..n], i);
    } else {
      assert es[..i] == es;
    }
  }

  /** A run that is not answered from the cache finds everything its steps rely on. */
  lemma RunStarts(lex: Lexicon, t: Tables, course: nat, version: string, ctx: Context, now: int)
    requires Sound(lex, t)
    ensures Refs(t)
    ensures var ks, run := EffectiveCandidates(t, course), |t.runs|;
            var begun := OpenRun(t, course, version, FingerprintOf(t, course));
            && Sound(lex, begun) && Refs(begun) && Known(begun, ks)
            && var ensured := EnsureAll(lex, begun, ks, now);
               && Known(ensured, ks)
               && var ordinary, changes := SourcesWhere(lex, ensured, ks, false), SourcesWhere(lex, ensured, ks, true);
                  && Sound(lex, ensured) && Ready(ensured, run, ordinary, course)
                  && var (first, deferred) := FirstPass(lex, ensured, ctx, run, ordinary);
                     && Sound(lex, first) && Ready(first, run, changes + deferred, course)
                     && InRange(first, changes + deferred)
                     && SecondPass(lex, first, ctx, run, changes + deferred) ==
                          Assigned(lex, t, course, version, ctx, now)
                     && Sound(lex, Assigned(lex, t, course, version, ctx, now))
  {
    hide Sound, Keeps, Refs, Audited, Unaudited, Passed, FirstPass, SecondPass, SourcesWhere, EnsureAll, Ready;
    SoundRefs(lex, t);
    var ks, run := EffectiveCandidates(t, course), |t.runs|;
    var begun := OpenRun(t, course, version, FingerprintOf(t, course));
    OpenRunSound(lex, t, course, version, FingerprintOf(t, course));
    SoundRefs(lex, begun);
    EffectiveInCourse(t, course);
    var ensured := EnsureAll(lex, begun, ks, now);
    EnsureAllPassed(lex, begun, ks, now, course);
    PassedKeeps(lex, begun, ensured, course);
    forall k ensures Unaudited(ensured, run, k) {
      UnauditedByLog(begun, ensured, run, k);
    }
    var handled := PassesReady(lex, ensured, ctx, run, ks, course);
    AssignedFacts(lex, t, course, version, ctx, now);
    PassedKeeps(lex, t, Assigned(lex, t, course, version, ctx, now), course);
  }

  // ----- lists of matching events

  /** The list holds the members of a set below a bound, each once; the set has none above. */
  ghost predicate Enumerates(q: seq<nat>, m: set<nat>, n: nat) {
    && (forall i :: 0 <= i < |q| ==> q[i] < n)
    && NoDuplicates(q)
    && forall d: nat :: d in q <==> d < n && d in m
  }

  lemma NothingEnumerated(m: set<nat>)
    ensures Enumerates([], m, 0)
  {
  }

  lemma EnumeratesStep(q: seq<nat>, m: set<nat>, n: nat)
    requires Enumerates(q, m, n)
    ensures Enumerates(if n in m then q + [n] else q, m, n + 1)
  {
    var next := if n in m then q + [n] else q;
    forall d: nat ensures d in next <==> d < n + 1 && d in m {
      assert n in m ==> next[|q|] == n;
    }
  }

  lemma MatchesAt(lex: Lexicon, t: Tables, ctx: Context, s: nat, e: nat)
    requires Refs(t) && s < |t.sources| && e < |t.events|
    ensures e in PlausibleEvents(lex, t, s) <==> t.events[e].course == t.sources[s].course && Plausible(lex, t, s, e)
    ensures e in MergeEvents(lex, t, ctx, s) <==>
              t.events[e].course == t.sources[s].course && Plausible(lex, t, s, e) && Merges(lex, t, ctx, s, e)
  {
  }

  lemma Singleton(q: seq<nat>, m: set<nat>, n: nat)
    requires Enumerates(q, m, n) && forall e :: e in m ==> e < n
    ensures |q| == 1 ==> m == {q[0]}
    ensures |q| != 1 ==> forall e :: m != {e}
  {
    if |q| > 1 {
      forall e ensures m != {e} {
        assert q[0] in m && q[1] in m;
      }
    } else if |q| == 1 {
      assert q[0] in m;
    }
  }

  lemma Same(q: seq<nat>, m: set<nat>, n: nat)
    requires Enumerates(q, m, n) && forall e :: e in m ==> e < n
    ensures Elements(q) == m && (q != [] <==> m != {}) && NoDuplicates(q) && forall i :: 0 <= i < |q| ==> q[i] < n
  {
    if q != [] {
      assert q[0] in m;
    }
  }

  lemma CandidateKnown(lex: Lexicon, t: Tables, ctx: Context, s: nat)
    requires Sound(lex, t) && s < |t.sources|
    ensures Refs(t) && t.sources[s].candidate < |t.candidates|
    ensures t.sources[s].event.Some? ==> t.sources[s].event.value < |t.events|
    ensures forall e :: e in PlausibleEvents(lex, t, s) ==> e < |t.events|
    ensures forall e :: e in MergeEvents(lex, t, ctx, s) ==> e < |t.events|
  {
    SoundRefs(lex, t);
    MergeInRange(lex, t, ctx, s);
    hide PlausibleEvents, MergeEvents;
  }

  // ----- one candidate

  lemma TreatmentCases(lex: Lexicon, t: Tables, ctx: Context, s: nat, defer: bool)
    requires Refs(t) && s < |t.sources|
    ensures var treatment, source := TreatmentOf(lex, t, ctx, s, defer), t.sources[s];
            var manual, plausible := ManualIdentityOf(t, s), PlausibleEvents(lex, t, s);
            if manual.Some? then treatment == Assign(manual.value, ManualRetained)
            else if source.event.Some? then treatment == Keep(source.event.value)
            else
              && (forall e :: MergeEvents(lex, t, ctx, s) == {e} ==> treatment == Assign(e, Merged))
              && ((forall e :: MergeEvents(lex, t, ctx, s) != {e}) ==>
                    treatment ==
                    if source.change != NoChange then Park(RelatedChange, plausible)
                    else if plausible == {} then Found
                    else if defer then Defer
                    else Park(Unresolved, plausible))
  {
    hide MergeEvents, PlausibleEvents, ManualIdentityOf;
    forall d, e | MergeEvents(lex, t, ctx, s) == {d} && MergeEvents(lex, t, ctx, s) == {e} ensures d == e {
      assert d in {e};
    }
  }

  lemma KeepDeferred(t: Tables, run: nat, s: nat)
    requires Refs(t) && s < |t.sources|
    ensures Treated(t, run, s, Defer) == t
  {
  }
}
