/** In which order a run treats its candidates (events/reconciliation.py:182-197): a candidate that only resembles
    events is left unresolved only after every announced change has found, or not found, its event. */
module RunOrder {
  import opened Matching
  import opened EventTables
  import opened RecomputeSound
  import opened Reconcile
  import opened RunSound
  import opened RunSteps

  /** The sources with (or without) an announced change. */
  ghost predicate Announcing(t: Tables, ss: seq<nat>, announcing: bool) {
    InRange(t, ss) && forall i :: 0 <= i < |ss| ==> (t.sources[ss[i]].change != NoChange) == announcing
  }

  /** Both stores have the same sources, but for what treatments write. */
  ghost predicate SameSources(t: Tables, u: Tables) {
    && |u.sources| == |t.sources| && u.candidates == t.candidates
    && forall s :: 0 <= s < |t.sources| ==>
         u.sources[s].change == t.sources[s].change && u.sources[s].candidate == t.sources[s].candidate
  }

  /** From `t` to `u` log rows were added, none of them leaving a candidate unresolved. */
  ghost predicate NoneUnresolved(t: Tables, u: Tables) {
    && t.decisions <= u.decisions
    && forall i :: |t.decisions| <= i < |u.decisions| ==> !u.decisions[i].verdict.LeftUnresolved?
  }

  /** From `t` to `u` log rows were added, none of them about an announced change. */
  ghost predicate NoneAnnounced(lex: Lexicon, t: Tables, u: Tables) {
    && t.decisions <= u.decisions && u.candidates == t.candidates
    && forall i :: |t.decisions| <= i < |u.decisions| ==>
         u.decisions[i].candidate < |u.candidates| &&
           lex.classify(u.candidates[u.decisions[i].candidate].wording) == NoChange
  }

  lemma TreatedSame(t: Tables, run: nat, s: nat, treatment: Treatment)
    requires Refs(t) && s < |t.sources|
    ensures SameSources(t, Treated(t, run, s, treatment))
    ensures var ds := Treated(t, run, s, treatment).decisions;
            if treatment.Defer? then ds == t.decisions
            else
              && |ds| == |t.decisions| + 1 && t.decisions <= ds && ds[|t.decisions|].verdict == VerdictOf(treatment)
              && ds[|t.decisions|].candidate == t.sources[s].candidate
  {
    hide Refs;
  }

  lemma UnresolvedOnlyPlain(lex: Lexicon, t: Tables, ctx: Context, s: nat, defer: bool)
    requires Refs(t) && s < |t.sources| && (defer || t.sources[s].change != NoChange)
    ensures var treatment := TreatmentOf(lex, t, ctx, s, defer);
            treatment.Defer? || !VerdictOf(treatment).LeftUnresolved?
  {
    hide Refs, MergeEvents, PlausibleEvents;
  }

  lemma {:induction false} FirstPassOrder(lex: Lexicon, t: Tables, ctx: Context, run: nat, ss: seq<nat>)
    requires Refs(t) && Announcing(t, ss, false)
    ensures var (u, deferred) := FirstPass(lex, t, ctx, run, ss);
            SameSources(t, u) && NoneUnresolved(t, u) && Announcing(t, deferred, false)
    decreases |ss|
  {
    hide Refs, Treated, TreatmentOf;
    if ss != [] {
      var n := |ss| - 1;
      FirstPassOrder(lex, t, ctx, run, ss[..n]);
      var before := FirstPass(lex, t, ctx, run, ss[..n]).0;
      TreatedSame(before, run, ss[n], TreatmentOf(lex, before, ctx, ss[n], true));
      UnresolvedOnlyPlain(lex, before, ctx, ss[n], true);
    }
  }

  lemma {:induction false} ChangesOrder(lex: Lexicon, t: Tables, ctx: Context, run: nat, ss: seq<nat>)
    requires Refs(t) && Announcing(t, ss, true)
    ensures var u := SecondPass(lex, t, ctx, run, ss); SameSources(t, u) && NoneUnresolved(t, u)
    decreases |ss|
  {
    hide Refs, Treated, TreatmentOf;
    if ss != [] {
      var n := |ss| - 1;
      ChangesOrder(lex, t, ctx, run, ss[..n]);
      var before := SecondPass(lex, t, ctx, run, ss[..n]);
      TreatedSame(before, run, ss[n], TreatmentOf(lex, before, ctx, ss[n], false));
      UnresolvedOnlyPlain(lex, before, ctx, ss[n], false);
    }
  }

  /** Sources mirror the wording of their candidates. */
  ghost predicate Mirrored(lex: Lexicon, t: Tables) {
    forall s :: 0 <= s < |t.sources| ==>
      t.sources[s].candidate < |t.candidates| &&
        t.sources[s].change == lex.classify(t.candidates[t.sources[s].candidate].wording)
  }

  /** What comes after the changes is about other candidates. */
  lemma {:induction false} RestOrder(lex: Lexicon, t: Tables, ctx: Context, run: nat, changes: seq<nat>,
                                     deferred: seq<nat>)
    requires Refs(t) && Mirrored(lex, t) && InRange(t, changes) && Announcing(t, deferred, false)
    ensures InRange(t, changes + deferred)
    ensures var middle := SecondPass(lex, t, ctx, run, changes); var u :=
      SecondPass(lex, t, ctx, run, changes + deferred);
            SameSources(middle, u) && NoneAnnounced(lex, middle, u) && SameSources(t, u)
    decreases |deferred|
  {
    hide Refs, Treated, TreatmentOf, NoneAnnounced, SameSources;
    SecondPassSame(lex, t, ctx, run, changes);
    SameAsBefore(lex, SecondPass(lex, t, ctx, run, changes));
    if deferred == [] {
      assert changes + deferred == changes;
    } else {
      var n := |deferred| - 1;
      var ss := changes + deferred;
      assert ss[..|ss| - 1] == changes + deferred[..n] && ss[|ss| - 1] == deferred[n];
      RestOrder(lex, t, ctx, run, changes, deferred[..n]);
      var before := SecondPass(lex, t, ctx, run, changes + deferred[..n]);
      OnePlain(lex, t, SecondPass(lex, t, ctx, run, changes), before, run, deferred[n],
               TreatmentOf(lex, before, ctx, deferred[n], false));
    }
  }

  lemma SameAsBefore(lex: Lexicon, t: Tables)
    ensures SameSources(t, t) && NoneAnnounced(lex, t, t)
  {
  }

  lemma OnePlain(lex: Lexicon, t: Tables, middle: Tables, before: Tables, run: nat, s: nat, treatment: Treatment)
    requires Mirrored(lex, t) && Refs(before) && s < |before.sources|
    requires SameSources(t, before) && SameSources(middle, before) && NoneAnnounced(lex, middle, before)
    requires t.sources[s].change == NoChange
    ensures var u := Treated(before, run, s, treatment);
            SameSources(t, u) && SameSources(middle, u) && NoneAnnounced(lex, middle, u)
  {
    hide Refs, Treated;
    TreatedSame(before, run, s, treatment);
  }

  lemma {:induction false} SecondPassSame(lex: Lexicon, t: Tables, ctx: Context, run: nat, ss: seq<nat>)
    requires Refs(t) && InRange(t, ss)
    ensures SameSources(t, SecondPass(lex, t, ctx, run, ss))
    decreases |ss|
  {
    hide Refs, Treated, TreatmentOf;
    if ss != [] {
      var n := |ss| - 1;
      SecondPassSame(lex, t, ctx, run, ss[..n]);
      var before := SecondPass(lex, t, ctx, run, ss[..n]);
      TreatedSame(before, run, ss[n], TreatmentOf(lex, before, ctx, ss[n], false));
    }
  }

  lemma {:induction false} WhereAnnounces(lex: Lexicon, t: Tables, ks: seq<nat>, changed: bool)
    requires Mirrored(lex, t) && Known(t, ks) && forall i :: 0 <= i < |ks| ==> HasSource(t, ks[i])
    ensures Announcing(t, SourcesWhere(lex, t, ks, changed), changed)
    decreases |ks|
  {
    hide HasSource;
    if ks != [] {
      WhereAnnounces(lex, t, ks[..|ks| - 1], changed);
    }
  }

  lemma MirroredIfSound(lex: Lexicon, t: Tables)
    requires Sound(lex, t)
    ensures Mirrored(lex, t)
  {
    SoundParts(lex, t);
    hide Sound;
    forall s | 0 <= s < |t.sources|
      ensures t.sources[s].candidate < |t.candidates|
      ensures t.sources[s].change == lex.classify(t.candidates[t.sources[s].candidate].wording)
    {
      assert SourceOk(lex, t, s);
    }
  }

  /** The log of a run falls into two parts: in the first no candidate is left unresolved, in the second no change is
      treated any more. */
  ghost predicate Ordered(lex: Lexicon, t: Tables, u: Tables, k: int) {
    && t.candidates == u.candidates && |t.decisions| <= k <= |u.decisions|
    && (forall i :: |t.decisions| <= i < k ==> !u.decisions[i].verdict.LeftUnresolved?)
    && (forall i :: k <= i < |u.decisions| ==>
          u.decisions[i].candidate < |u.candidates| &&
            lex.classify(u.candidates[u.decisions[i].candidate].wording) == NoChange)
  }

  lemma InTwoParts(lex: Lexicon, t: Tables, first: Tables, middle: Tables, u: Tables)
    requires first.candidates == t.candidates && middle.candidates == t.candidates
    requires NoneUnresolved(t, first) && NoneUnresolved(first, middle) && NoneAnnounced(lex, middle, u)
    ensures Ordered(lex, t, u, |middle.decisions|)
  {
  }

  lemma AssignedOrder(lex: Lexicon, t: Tables, course: nat, version: string, ctx: Context, now: int)
    requires Sound(lex, t)
    ensures Refs(t) && exists k :: Ordered(lex, t, Assigned(lex, t, course, version, ctx, now), k)
  {
    hide Sound, Refs, FirstPass, SecondPass, SourcesWhere, EnsureAll, FingerprintOf, Ready, Passed, NoneUnresolved,
      NoneAnnounced, Announcing, Mirrored;
    SoundRefs(lex, t);
    RunStarts(lex, t, course, version, ctx, now);
    var ks, run := EffectiveCandidates(t, course), |t.runs|;
    var begun := OpenRun(t, course, version, FingerprintOf(t, course));
    var ensured := EnsureAll(lex, begun, ks, now);
    EnsureAllPassed(lex, begun, ks, now, course);
    MirroredIfSound(lex, ensured);
    var ordinary, changes := SourcesWhere(lex, ensured, ks, false), SourcesWhere(lex, ensured, ks, true);
    WhereAnnounces(lex, ensured, ks, false);
    WhereAnnounces(lex, ensured, ks, true);
    var (first, deferred) := FirstPass(lex, ensured, ctx, run, ordinary);
    FirstPassOrder(lex, ensured, ctx, run, ordinary);
    AnnouncingStill(ensured, first, changes, true);
    AnnouncingStill(ensured, first, deferred, false);
    MirroredIfSound(lex, first);
    ChangesOrder(lex, first, ctx, run, changes);
    RestOrder(lex, first, ctx, run, changes, deferred);
    var u := SecondPass(lex, first, ctx, run, changes + deferred);
    LogStarts(t, ensured, first);
    InTwoParts(lex, t, first, SecondPass(lex, first, ctx, run, changes), u);
  }

  lemma AnnouncingStill(t: Tables, u: Tables, ss: seq<nat>, announcing: bool)
    requires Announcing(t, ss, announcing) && SameSources(t, u)
    ensures Announcing(u, ss, announcing)
  {
  }

  lemma LogStarts(t: Tables, u: Tables, v: Tables)
    requires u.decisions == t.decisions && NoneUnresolved(u, v)
    ensures NoneUnresolved(t, v)
  {
  }

  /** So in the log of every fresh run. */
  lemma RunOrdered(lex: Lexicon, t: Tables, course: nat, version: string, ctx: Context, now: int)
    requires Sound(lex, t)
    ensures Refs(t) && (FreshRun(lex, t, course, version, ctx, now).Some? ==>
              exists k :: Ordered(lex, t, FreshRun(lex, t, course, version, ctx, now).value, k))
  {
    hide Sound, Refs, Keeps, Assigned, RecomputeAll, Audited, OnlyCourse, Ordered;
    SoundRefs(lex, t);
    AssignedOrder(lex, t, course, version, ctx, now);
    AssignedFacts(lex, t, course, version, ctx, now);
    var u := Assigned(lex, t, course, version, ctx, now);
    PassedKeeps(lex, t, u, course);
    var es := EventsUpTo(u, course, |u.events|);
    RecomputeAllSound(lex, u, es);
    if FreshRun(lex, t, course, version, ctx, now).Some? {
      var k :| Ordered(lex, t, u, k);
      OrderedStill(lex, t, u, RecomputeAll(lex, u, es).value, k);
    }
  }

  lemma OrderedStill(lex: Lexicon, t: Tables, u: Tables, v: Tables, k: int)
    requires Ordered(lex, t, u, k) && v.decisions == u.decisions && v.candidates == u.candidates
    ensures Ordered(lex, t, v, k)
  {
  }
}
