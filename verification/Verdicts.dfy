/** What every verdict of every run was based on (events/reconciliation.py:825-965): the audit log explained row by row,
    over whole histories. */
module Verdicts {
  import opened Basics
  import opened Matching
  import opened EventTables
  import opened Recompute
  import opened RecomputeSound
  import opened Reconcile
  import opened ReconcileSound
  import opened RunSound
  import opened RunSteps
  import opened Manual
  import opened ManualSound
  import opened RunRaises
  import opened Histories
  import opened Ties

  // ----- one candidate

  ghost predicate Like(lex: Lexicon, t: Tables, s: nat, e: int)
    requires Refs(t) && s < |t.sources|
  {
    0 <= e < |t.events| && t.events[e].course == t.sources[s].course && Resembles(lex, t, s, e)
  }

  ghost predicate Fits(lex: Lexicon, t: Tables, ctx: Context, s: nat, e: int)
    requires Refs(t) && s < |t.sources|
  {
    0 <= e < |t.events| && t.events[e].course == t.sources[s].course && Tied(lex, t, ctx, s, e)
  }

  /** The one event of the course the source is tied to. */
  ghost predicate OnlyFits(lex: Lexicon, t: Tables, ctx: Context, s: nat, e: int)
    requires Refs(t) && s < |t.sources|
  {
    Fits(lex, t, ctx, s, e) && forall d :: Fits(lex, t, ctx, s, d) ==> d == e
  }

  predicate IdentityInForce(t: Tables, s: nat, m: int) {
    0 <= m < |t.manualIdentities| && t.manualIdentities[m].active && t.manualIdentities[m].source == s
  }

  /** The verdict on a source, from the store as it was just before. */
  ghost predicate Judged(lex: Lexicon, t: Tables, ctx: Context, s: nat, d: Decision)
    requires Refs(t)
  {
    && s < |t.sources| && d.candidate == t.sources[s].candidate
    && if exists m :: IdentityInForce(t, s, m) then
         d.verdict.ManualRetained? && exists m ::
           IdentityInForce(t, s, m) && d.event == Some(t.manualIdentities[m].event)
       else if t.sources[s].event.Some? then d.verdict.Retained? && d.event == t.sources[s].event
       else if exists e :: OnlyFits(lex, t, ctx, s, e) then
         d.verdict.Merged? && d.event.Some? && OnlyFits(lex, t, ctx, s, d.event.value)
       else if t.sources[s].change != NoChange then d.verdict.LeftRelated? && d.event.None?
       else if exists e :: Like(lex, t, s, e) then d.verdict.LeftUnresolved? && d.event.None?
       else d.verdict.Created? && d.event == Some(|t.events|)
  }

  /** What the verdict writes: the binding, and the events an unbound source might belong to. */
  ghost predicate Carried(lex: Lexicon, t: Tables, u: Tables, s: nat, d: Decision)
    requires Refs(t) && s < |t.sources|
  {
    && |u.sources| == |t.sources| && u.sources[s].event == d.event
    && (forall r :: 0 <= r < |t.sources| && r != s ==> u.sources[r] == t.sources[r])
    && |u.events| == |t.events| + (if d.verdict.Created? then 1 else 0)
    && (forall e :: (s, e) in u.possible <==>
          (d.verdict.LeftRelated? || d.verdict.LeftUnresolved?) && Like(lex, t, s, e))
  }

  lemma ManyMean(lex: Lexicon, t: Tables, ctx: Context, s: nat)
    requires Sound(lex, t) && Refs(t) && Claimed(t) && s < |t.sources|
    ensures forall e: int :: 0 <= e ==> (e in PlausibleEvents(lex, t, s) <==> Like(lex, t, s, e))
    ensures forall e: int :: 0 <= e ==> (e in MergeEvents(lex, t, ctx, s) <==> Fits(lex, t, ctx, s, e))
  {
    hide Sound, Refs, Claimed, Plausible, Merges, Resembles, Tied;
    forall e: nat | e < |t.events|
      ensures Plausible(lex, t, s, e) <==> Resembles(lex, t, s, e)
      ensures Merges(lex, t, ctx, s, e) <==> Tied(lex, t, ctx, s, e)
    {
      SignalsMean(lex, t, ctx, s, e);
    }
  }

  lemma OneMeans(lex: Lexicon, t: Tables, ctx: Context, s: nat)
    requires Sound(lex, t) && Refs(t) && Claimed(t) && s < |t.sources|
    ensures forall e: nat :: MergeEvents(lex, t, ctx, s) == {e} <==> OnlyFits(lex, t, ctx, s, e)
    ensures PlausibleEvents(lex, t, s) != {} <==> exists e :: Like(lex, t, s, e)
    ensures forall e :: Fits(lex, t, ctx, s, e) || Like(lex, t, s, e) ==> e >= 0
  {
    hide Sound, Refs, Claimed, PlausibleEvents, MergeEvents, Resembles, Tied;
    ManyMean(lex, t, ctx, s);
    var merged, plausible := MergeEvents(lex, t, ctx, s), PlausibleEvents(lex, t, s);
    forall e: nat ensures merged == {e} <==> OnlyFits(lex, t, ctx, s, e) {
      if merged == {e} {
        forall d | Fits(lex, t, ctx, s, d) ensures d == e { assert d in merged; }
        assert e in merged;
      }
      if OnlyFits(lex, t, ctx, s, e) {
        assert e in merged;
        forall d | d in merged ensures d == e { assert Fits(lex, t, ctx, s, d); }
        assert merged == {e};
      }
    }
    if e :| Like(lex, t, s, e) {
      assert e in plausible;
    }
    if plausible != {} {
      var e :| e in plausible;
      assert Like(lex, t, s, e);
    }
  }

  lemma IdentityMeans(t: Tables, s: nat)
    ensures ManualIdentityOf(t, s).Some? <==> exists m :: IdentityInForce(t, s, m)
    ensures ManualIdentityOf(t, s).Some? ==>
              exists m :: IdentityInForce(t, s, m) && ManualIdentityOf(t, s).value == t.manualIdentities[m].event
  {
    if ManualIdentityOf(t, s).Some? {
      var m :| 0 <= m < |t.manualIdentities| && t.manualIdentities[m].active && t.manualIdentities[m].source == s &&
               t.manualIdentities[m].event == ManualIdentityOf(t, s).value;
      assert IdentityInForce(t, s, m);
    }
    if m :| IdentityInForce(t, s, m) {
      assert t.manualIdentities[m].active;
    }
  }

  /** The treatment is the verdict. */
  lemma TreatmentJudged(lex: Lexicon, t: Tables, ctx: Context, run: nat, s: nat, defer: bool)
    requires Sound(lex, t) && Refs(t) && Claimed(t) && s < |t.sources|
    ensures var treatment := TreatmentOf(lex, t, ctx, s, defer); var row := AuditRow(t, run, s, treatment);
            if treatment.Defer? then defer && row == [] && exists e :: Like(lex, t, s, e)
            else |row| == 1 && row[0].run == run && Judged(lex, t, ctx, s, row[0])
  {
    hide Sound, Refs, Claimed, PlausibleEvents, MergeEvents, Like, Fits, OnlyFits, ManualIdentityOf, IdentityInForce;
    OneMeans(lex, t, ctx, s);
    IdentityMeans(t, s);
    forall e | OnlyFits(lex, t, ctx, s, e) ensures e >= 0 { OnlyFitsIn(lex, t, ctx, s, e); }
  }

  lemma OnlyFitsIn(lex: Lexicon, t: Tables, ctx: Context, s: nat, e: int)
    requires Refs(t) && s < |t.sources| && OnlyFits(lex, t, ctx, s, e)
    ensures e >= 0
  {
    hide Refs, Tied;
  }

  lemma TreatedCarried(lex: Lexicon, t: Tables, ctx: Context, run: nat, s: nat, defer: bool)
    requires Sound(lex, t) && Refs(t) && Claimed(t) && s < |t.sources|
    ensures var treatment := TreatmentOf(lex, t, ctx, s, defer); var row := AuditRow(t, run, s, treatment);
            if treatment.Defer? then Treated(t, run, s, treatment) == t
            else |row| == 1 && Carried(lex, t, Treated(t, run, s, treatment), s, row[0])
  {
    hide Sound, Refs, Claimed, PlausibleEvents, MergeEvents, Like, TreatmentOf;
    TreatmentFacts(lex, t, ctx, s, defer);
    TreatmentVerdicts(lex, t, ctx, s, defer);
    ManyMean(lex, t, ctx, s);
    ParkedPlausible(lex, t, ctx, s, defer);
    BoundHoldsNothing(lex, t, s);
    LikeIn(lex, t, s);
  }

  lemma LikeIn(lex: Lexicon, t: Tables, s: nat)
    requires Refs(t) && s < |t.sources|
    ensures forall e :: Like(lex, t, s, e) ==> e >= 0
  {
    hide Refs, Resembles;
  }

  lemma ParkedPlausible(lex: Lexicon, t: Tables, ctx: Context, s: nat, defer: bool)
    requires Refs(t) && s < |t.sources|
    ensures var treatment := TreatmentOf(lex, t, ctx, s, defer);
            treatment.Park? ==> treatment.events == PlausibleEvents(lex, t, s)
  {
    hide Refs, PlausibleEvents, MergeEvents, ManualIdentityOf;
  }

  lemma BoundHoldsNothing(lex: Lexicon, t: Tables, s: nat)
    requires Sound(lex, t) && s < |t.sources|
    ensures t.sources[s].event.Some? ==> forall e :: (s, e) !in t.possible
  {
    hide ClaimsOk, SourcesOk, EdgesOk, ConflictsOk, ProjectionsOk, ManualFieldsOk, ManualIdentitiesOk;
  }

  // ----- a whole run

  /** Row `i` of the log of `u` was written on top of the store `t`, reached from `t0`. */
  ghost predicate Told(lex: Lexicon, t0: Tables, u: Tables, ctx: Context, i: int, t: Tables, s: nat) {
    && 0 <= i < |u.decisions| && |t.decisions| == i && Sound(lex, t) && Keeps(t0, t) && Keeps(t, u)
    && Judged(lex, t, ctx, s, u.decisions[i])
  }

  ghost predicate SomeTold(lex: Lexicon, t0: Tables, u: Tables, ctx: Context, i: int) {
    exists t, s :: Told(lex, t0, u, ctx, i, t, s)
  }

  /** Row `i` of the log is the one that bound the source. */
  predicate Binds(t: Tables, s: nat, i: int)
    requires s < |t.sources|
  {
    && 0 <= i < |t.decisions| && t.decisions[i].candidate == t.sources[s].candidate
    && t.decisions[i].event == t.sources[s].event && (t.decisions[i].verdict.Created? || t.decisions[i].verdict.Merged?)
  }

  /** Without identity decisions every binding is in the log, as the foundation of an event or as a merge. */
  ghost predicate BindingsLogged(t: Tables) {
    t.manualIdentities == [] ==>
      forall s :: 0 <= s < |t.sources| && t.sources[s].event.Some? ==> exists i :: Binds(t, s, i)
  }

  ghost predicate Story(lex: Lexicon, t0: Tables, u: Tables, ctx: Context) {
    && Keeps(t0, u) && (BindingsLogged(t0) ==> BindingsLogged(u))
    && forall i :: |t0.decisions| <= i < |u.decisions| ==> SomeTold(lex, t0, u, ctx, i)
  }

  /** Nothing bound since. */
  ghost predicate BoundBefore(t: Tables, u: Tables) {
    forall s :: 0 <= s < |u.sources| && u.sources[s].event.Some? ==>
      s < |t.sources| && t.sources[s].event == u.sources[s].event
  }

  lemma NoStory(lex: Lexicon, t0: Tables, u: Tables, ctx: Context)
    requires Keeps(t0, u) && u.decisions == t0.decisions && BoundBefore(t0, u)
    ensures Story(lex, t0, u, ctx)
  {
    LoggedStill(t0, u);
    hide Keeps, BindingsLogged;
  }

  lemma LoggedStill(t: Tables, u: Tables)
    requires Keeps(t, u) && BoundBefore(t, u)
    ensures BindingsLogged(t) ==> BindingsLogged(u)
  {
    if BindingsLogged(t) && u.manualIdentities == [] {
      forall s | 0 <= s < |u.sources| && u.sources[s].event.Some? ensures exists i :: Binds(u, s, i) {
        assert t.sources[s].event.Some?;
        var i :| Binds(t, s, i);
        assert SourceKept(t.sources[s], u.sources[s]);
        assert Binds(u, s, i);
      }
    }
  }

  lemma BoundBeforeSame(t: Tables, u: Tables)
    requires |u.sources| == |t.sources| && forall s :: 0 <= s < |t.sources| ==> u.sources[s].event == t.sources[s].event
    ensures BoundBefore(t, u)
  {
  }

  /** One verdict more: what it binds is logged with it. */
  lemma LoggedNow(lex: Lexicon, t: Tables, u: Tables, ctx: Context, s: nat, d: Decision)
    requires Refs(t) && Keeps(t, u) && Judged(lex, t, ctx, s, d) && Carried(lex, t, u, s, d)
    requires u.decisions == t.decisions + [d] && u.manualIdentities == t.manualIdentities
    ensures BindingsLogged(t) ==> BindingsLogged(u)
  {
    hide Refs, Fits, Like, OnlyFits;
    if BindingsLogged(t) && u.manualIdentities == [] {
      forall r | 0 <= r < |u.sources| && u.sources[r].event.Some? ensures exists i :: Binds(u, r, i) {
        assert SourceKept(t.sources[r], u.sources[r]);
        if t.sources[r].event.Some? {
          var i :| Binds(t, r, i);
          assert Binds(u, r, i);
        } else {
          assert Binds(u, r, |t.decisions|);
        }
      }
    }
  }

  lemma ToldLater(lex: Lexicon, t0: Tables, u: Tables, v: Tables, ctx: Context, i: int, t: Tables, s: nat)
    requires Told(lex, t0, u, ctx, i, t, s) && Keeps(u, v) && u.decisions <= v.decisions
    ensures Told(lex, t0, v, ctx, i, t, s)
  {
    KeepsTransitive(t, u, v);
    hide Judged, Keeps, Sound;
  }

  lemma ToldBefore(lex: Lexicon, t0: Tables, t1: Tables, u: Tables, ctx: Context, i: int, t: Tables, s: nat)
    requires Told(lex, t1, u, ctx, i, t, s) && Keeps(t0, t1)
    ensures Told(lex, t0, u, ctx, i, t, s)
  {
    KeepsTransitive(t0, t1, t);
    hide Judged, Keeps, Sound;
  }

  lemma KeepsLog(t: Tables, u: Tables)
    requires Keeps(t, u)
    ensures t.decisions <= u.decisions
  {
  }

  /** Two stretches of a run tell one story. */
  lemma StoryTransitive(lex: Lexicon, t0: Tables, t1: Tables, u: Tables, ctx: Context)
    requires Story(lex, t0, t1, ctx) && Story(lex, t1, u, ctx)
    ensures Story(lex, t0, u, ctx)
  {
    hide Keeps, Told, BindingsLogged;
    KeepsTransitive(t0, t1, u);
    KeepsLog(t1, u);
    forall i | |t0.decisions| <= i < |u.decisions| ensures SomeTold(lex, t0, u, ctx, i) {
      if i < |t1.decisions| {
        assert SomeTold(lex, t0, t1, ctx, i);
        var t, s :| Told(lex, t0, t1, ctx, i, t, s);
        ToldLater(lex, t0, t1, u, ctx, i, t, s);
      } else {
        assert SomeTold(lex, t1, u, ctx, i);
        var t, s :| Told(lex, t1, u, ctx, i, t, s);
        ToldBefore(lex, t0, t1, u, ctx, i, t, s);
      }
    }
  }

  lemma TreatedStory(lex: Lexicon, t: Tables, ctx: Context, run: nat, s: nat, defer: bool)
    requires Sound(lex, t) && Claimed(t) && s < |t.sources| && run < |t.runs|
    requires Unaudited(t, run, t.sources[s].candidate)
    ensures Refs(t) && Story(lex, t, Treated(t, run, s, TreatmentOf(lex, t, ctx, s, defer)), ctx)
  {
    hide Sound, Refs, Claimed, Keeps, TreatmentOf, Treated, Judged, Carried, Unaudited, AuditRow, BindingsLogged;
    SoundRefs(lex, t);
    TreatedSound(lex, t, ctx, run, s, defer);
    TreatmentJudged(lex, t, ctx, run, s, defer);
    TreatedCarried(lex, t, ctx, run, s, defer);
    KeepsReflexive(t);
    var treatment := TreatmentOf(lex, t, ctx, s, defer);
    var u := Treated(t, run, s, treatment);
    if !treatment.Defer? {
      var d := AuditRow(t, run, s, treatment)[0];
      assert u.decisions == t.decisions + [d];
      LoggedNow(lex, t, u, ctx, s, d);
      assert Told(lex, t, u, ctx, |t.decisions|, t, s);
    }
  }

  lemma {:induction false} FirstPassStory(lex: Lexicon, t: Tables, ctx: Context, run: nat, ss: seq<nat>, course: nat,
                                          n: nat)
    requires Sound(lex, t) && Claimed(t) && Ready(t, run, ss, course) && n <= |ss|
    ensures Refs(t) && InRange(t, ss[..n]) && Story(lex, t, FirstPass(lex, t, ctx, run, ss[..n]).0, ctx)
    decreases n
  {
    hide Sound, Refs, Claimed, Keeps, TreatmentOf, Treated, Unaudited, Story, Ready, FirstPass;
    SoundRefs(lex, t);
    ReadyInRange(t, run, ss, course);
    if n == 0 {
      FirstPassNone(lex, t, ctx, run);
      KeepsReflexive(t);
      BoundBeforeSame(t, t);
      NoStory(lex, t, t, ctx);
      assert ss[..0] == [];
    } else {
      FirstPassStory(lex, t, ctx, run, ss, course, n - 1);
      FirstPassStep(lex, t, ctx, run, ss, course, n - 1);
      FirstPassClaimed(lex, t, ctx, run, ss, course, n - 1);
      var before := FirstPass(lex, t, ctx, run, ss[..n - 1]).0;
      TreatedStory(lex, before, ctx, run, ss[n - 1], true);
      StoryTransitive(lex, t, before, FirstPass(lex, t, ctx, run, ss[..n]).0, ctx);
    }
  }

  lemma FirstPassNone(lex: Lexicon, t: Tables, ctx: Context, run: nat)
    requires Refs(t)
    ensures FirstPass(lex, t, ctx, run, []) == (t, []) && SecondPass(lex, t, ctx, run, []) == t
  {
  }

  lemma FirstPassClaimed(lex: Lexicon, t: Tables, ctx: Context, run: nat, ss: seq<nat>, course: nat, n: nat)
    requires Sound(lex, t) && Claimed(t) && Ready(t, run, ss, course) && n <= |ss|
    ensures Refs(t) && InRange(t, ss[..n]) && Claimed(FirstPass(lex, t, ctx, run, ss[..n]).0)
  {
    hide Sound, Refs, Keeps, Claimed, FirstPass, Audited, OnlyCourse, Unaudited;
    SoundRefs(lex, t);
    ReadyInRange(t, run, ss, course);
    ReadyPrefix(t, run, ss, course, n);
    var handled := FirstPassAudits(lex, t, ctx, run, ss[..n], course);
  }

  lemma ReadyPrefix(t: Tables, run: nat, ss: seq<nat>, course: nat, n: nat)
    requires Ready(t, run, ss, course) && n <= |ss|
    ensures Ready(t, run, ss[..n], course)
  {
    hide Unaudited;
    forall i | 0 <= i < n ensures Of(t, ss[..n])[i] == Of(t, ss)[i] {}
  }

  lemma {:induction false} SecondPassStory(lex: Lexicon, t: Tables, ctx: Context, run: nat, ss: seq<nat>, course: nat,
                                           n: nat)
    requires Sound(lex, t) && Claimed(t) && Ready(t, run, ss, course) && n <= |ss|
    ensures Refs(t) && InRange(t, ss[..n]) && Story(lex, t, SecondPass(lex, t, ctx, run, ss[..n]), ctx)
    decreases n
  {
    hide Sound, Refs, Claimed, Keeps, TreatmentOf, Treated, Unaudited, Story, Ready, SecondPass;
    SoundRefs(lex, t);
    ReadyInRange(t, run, ss, course);
    if n == 0 {
      FirstPassNone(lex, t, ctx, run);
      KeepsReflexive(t);
      BoundBeforeSame(t, t);
      NoStory(lex, t, t, ctx);
      assert ss[..0] == [];
    } else {
      SecondPassStory(lex, t, ctx, run, ss, course, n - 1);
      SecondPassStep(lex, t, ctx, run, ss, course, n - 1);
      SecondPassClaimed(lex, t, ctx, run, ss, course, n - 1);
      var before := SecondPass(lex, t, ctx, run, ss[..n - 1]);
      TreatedStory(lex, before, ctx, run, ss[n - 1], false);
      StoryTransitive(lex, t, before, SecondPass(lex, t, ctx, run, ss[..n]), ctx);
    }
  }

  lemma SecondPassClaimed(lex: Lexicon, t: Tables, ctx: Context, run: nat, ss: seq<nat>, course: nat, n: nat)
    requires Sound(lex, t) && Claimed(t) && Ready(t, run, ss, course) && n <= |ss|
    ensures Refs(t) && InRange(t, ss[..n]) && Claimed(SecondPass(lex, t, ctx, run, ss[..n]))
  {
    hide Sound, Refs, Keeps, Claimed, SecondPass, Audited, OnlyCourse, Unaudited;
    SoundRefs(lex, t);
    ReadyInRange(t, run, ss, course);
    ReadyPrefix(t, run, ss, course, n);
    SecondPassAudits(lex, t, ctx, run, ss[..n], course);
  }

  lemma {:induction false} EnsuredUnbound(lex: Lexicon, t: Tables, ks: seq<nat>, now: int)
    requires Refs(t) && Known(t, ks)
    ensures BoundBefore(t, EnsureAll(lex, t, ks, now))
    decreases |ks|
  {
    hide Refs;
    if ks != [] {
      var n := |ks| - 1;
      EnsuredUnbound(lex, t, ks[..n], now);
      var before := EnsureAll(lex, t, ks[..n], now);
      assert before.sources <= EnsureSource(lex, before, ks[n], now).sources;
    }
  }

  /** The run up to recomputation. */
  lemma AssignedStory(lex: Lexicon, t: Tables, course: nat, version: string, ctx: Context, now: int)
    requires Sound(lex, t) && Refs(t) && Claimed(t)
    ensures Story(lex, t, Assigned(lex, t, course, version, ctx, now), ctx)
  {
    hide Sound, Refs, Claimed, Keeps, FirstPass, SecondPass, SourcesWhere, EnsureAll, FingerprintOf, Ready, Story,
      Audited, OnlyCourse, BoundBefore, BindingsLogged, Unaudited;
    RunStarts(lex, t, course, version, ctx, now);
    var ks, run := EffectiveCandidates(t, course), |t.runs|;
    var begun := OpenRun(t, course, version, FingerprintOf(t, course));
    OpenRunPassed(lex, t, course, version, FingerprintOf(t, course));
    var ensured := EnsureAll(lex, begun, ks, now);
    EnsureAllPassed(lex, begun, ks, now, course);
    PassedKeeps(lex, t, begun, course);
    PassedKeeps(lex, begun, ensured, course);
    BoundBeforeSame(t, begun);
    NoStory(lex, t, begun, ctx);
    EnsuredUnbound(lex, begun, ks, now);
    NoStory(lex, begun, ensured, ctx);
    StoryTransitive(lex, t, begun, ensured, ctx);
    var ordinary, changes := SourcesWhere(lex, ensured, ks, false), SourcesWhere(lex, ensured, ks, true);
    FirstPassStory(lex, ensured, ctx, run, ordinary, course, |ordinary|);
    FirstPassClaimed(lex, ensured, ctx, run, ordinary, course, |ordinary|);
    assert ordinary[..|ordinary|] == ordinary;
    var (first, deferred) := FirstPass(lex, ensured, ctx, run, ordinary);
    var rest := changes + deferred;
    SecondPassStory(lex, first, ctx, run, rest, course, |rest|);
    assert rest[..|rest|] == rest;
    StoryTransitive(lex, t, ensured, first, ctx);
    StoryTransitive(lex, t, first, SecondPass(lex, first, ctx, run, rest), ctx);
  }

  lemma {:induction false} RecomputeAllSources(lex: Lexicon, t: Tables, es: seq<nat>)
    requires Sound(lex, t) && forall i :: 0 <= i < |es| ==> es[i] < |t.events|
    ensures Refs(t) && (RecomputeAll(lex, t, es).Some? ==> RecomputeAll(lex, t, es).value.sources == t.sources)
    decreases |es|
  {
    hide Sound, Refs, Recomputed, Keeps;
    SoundRefs(lex, t);
    if es != [] {
      var n := |es| - 1;
      RecomputeAllSources(lex, t, es[..n]);
      RecomputeAllSound(lex, t, es[..n]);
      var before := RecomputeAll(lex, t, es[..n]);
      if before.Some? && Recomputed(lex, before.value, es[n]).Some? {
        RecomputedSameBut(lex, before.value, es[n]);
      }
    }
  }

  lemma RunStory(lex: Lexicon, t: Tables, course: nat, version: string, ctx: Context, now: int)
    requires Sound(lex, t) && Refs(t) && Claimed(t)
    ensures FreshRun(lex, t, course, version, ctx, now).Some? ==>
              Story(lex, t, FreshRun(lex, t, course, version, ctx, now).value, ctx)
  {
    hide Sound, Refs, Claimed, Keeps, Assigned, RecomputeAll, Story, Audited, OnlyCourse, BoundBefore;
    AssignedStory(lex, t, course, version, ctx, now);
    AssignedFacts(lex, t, course, version, ctx, now);
    var u := Assigned(lex, t, course, version, ctx, now);
    PassedKeeps(lex, t, u, course);
    var es := EventsUpTo(u, course, |u.events|);
    RecomputeAllSound(lex, u, es);
    RecomputeAllSources(lex, u, es);
    var v := RecomputeAll(lex, u, es);
    if v.Some? {
      BoundBeforeSame(u, v.value);
      NoStory(lex, u, v.value, ctx);
      StoryTransitive(lex, t, u, v.value, ctx);
    }
  }

  // ----- every history

  lemma OtherStepLog(lex: Lexicon, t: Tables, step: Step)
    requires Committed(lex, t) && Refs(t) && !step.ReconcileCourse?
    ensures Stepped(lex, t, step).decisions == t.decisions
    ensures BindingsLogged(t) ==> BindingsLogged(Stepped(lex, t, step))
  {
    hide Sound, Refs, Keeps, Recomputed, BindingsLogged, Committed;
    SteppedFacts(lex, t, step);
    CommittedSound(lex, t);
    var u := Stepped(lex, t, step);
    match step
    case Ingest(x, cs) =>
      BoundBeforeSame(t, u);
      LoggedStill(t, u);
    case DecideField(e, f, choice, at) =>
      if FieldResolved(lex, t, e, f, choice, at).Some? {
        FieldDecidedSound(lex, t, e, f, choice, at);
        DecidedLog(lex, FieldDecided(t, e, f, choice, at), e);
        RecordingKeeps(t, e, f, choice, at);
        BoundBeforeSame(t, u);
        LoggedStill(t, u);
      }
    case DecideIdentity(s, e) =>
      if IdentityResolved(lex, t, s, e).Some? {
        BindSound(lex, t, s, e);
        IdentityRecordedSound(lex, Bind(t, s, e), s, e);
        DecidedLog(lex, IdentityRecorded(Bind(t, s, e), s, e), e);
        ManyIdentities(u);
      }
  }

  lemma DecidedLog(lex: Lexicon, t: Tables, e: nat)
    requires Sound(lex, t) && e < |t.events| && Recomputed(lex, t, e).Some?
    ensures var v := Recomputed(lex, t, e).value;
            && v.decisions == t.decisions && v.sources == t.sources && |v.manualIdentities| >= |t.manualIdentities|
  {
    hide Sound, Refs, Recomputed;
    SoundRefs(lex, t);
    RecomputedLog(lex, t, e);
    RecomputedSameBut(lex, t, e);
    RecomputedSound(lex, t, e);
  }

  lemma ManyIdentities(u: Tables)
    requires |u.manualIdentities| > 0
    ensures BindingsLogged(u)
  {
  }

  /** Row `i` of the log after a history was written by its step `j`, a run, on top of the store `t`. */
  ghost predicate WrittenAt(lex: Lexicon, steps: seq<Step>, i: int, j: int, t: Tables, s: nat) {
    && 0 <= j < |steps| && steps[j].ReconcileCourse?
    && Told(lex, After(lex, steps[..j]), After(lex, steps), steps[j].ctx, i, t, s)
  }

  lemma WrittenLater(lex: Lexicon, steps: seq<Step>, i: int, j: int, t: Tables, s: nat)
    requires steps != [] && WrittenAt(lex, steps[..|steps| - 1], i, j, t, s)
    ensures WrittenAt(lex, steps, i, j, t, s)
  {
    hide Told, Keeps, Stepped, Committed;
    var n := |steps| - 1;
    assert steps[..n][..j] == steps[..j];
    SteppedFacts(lex, After(lex, steps[..n]), steps[n]);
    KeepsLog(After(lex, steps[..n]), After(lex, steps));
    ToldLater(lex, After(lex, steps[..j]), After(lex, steps[..n]), After(lex, steps), steps[j].ctx, i, t, s);
  }

  lemma RunStepStory(lex: Lexicon, t: Tables, step: Step)
    requires Committed(lex, t) && Refs(t) && Claimed(t) && step.ReconcileCourse?
    ensures Story(lex, t, Stepped(lex, t, step), step.ctx)
  {
    hide Committed, Sound, Refs, Claimed, Keeps, FreshRun, Story, Cached;
    CommittedSound(lex, t);
    RunStory(lex, t, step.course, step.version, step.ctx, step.now);
    KeepsReflexive(t);
    BoundBeforeSame(t, t);
    NoStory(lex, t, t, step.ctx);
  }

  /** Every row of the log of every history has a run that wrote it, for the reasons `Judged` gives, on top of a store
      that everything later only appends to. */
  lemma {:induction false} HistoryVerdicts(lex: Lexicon, steps: seq<Step>, i: nat)
    ensures i < |After(lex, steps).decisions| ==> exists j, t, s :: WrittenAt(lex, steps, i, j, t, s)
    decreases |steps|
  {
    hide Told, Keeps, Stepped, Committed, Claimed, Refs, WrittenAt;
    if steps == [] {
      assert After(lex, steps) == EMPTY;
    } else {
      var n := |steps| - 1;
      var before, after := After(lex, steps[..n]), After(lex, steps);
      HistoryVerdicts(lex, steps[..n], i);
      HistoryClaims(lex, steps[..n]);
      if i < |before.decisions| {
        var j, t, s :| WrittenAt(lex, steps[..n], i, j, t, s);
        WrittenLater(lex, steps, i, j, t, s);
      } else if steps[n].ReconcileCourse? {
        RunStepStory(lex, before, steps[n]);
        if i < |after.decisions| {
          NewlyWritten(lex, steps, i);
        }
      } else {
        OtherStepLog(lex, before, steps[n]);
      }
    }
  }

  lemma NewlyWritten(lex: Lexicon, steps: seq<Step>, i: nat)
    requires steps != [] && steps[|steps| - 1].ReconcileCourse?
    requires Story(lex, After(lex, steps[..|steps| - 1]), After(lex, steps), steps[|steps| - 1].ctx)
    requires |After(lex, steps[..|steps| - 1]).decisions| <= i < |After(lex, steps).decisions|
    ensures exists j, t, s :: WrittenAt(lex, steps, i, j, t, s)
  {
    hide After, Told, Keeps, BindingsLogged;
    var n := |steps| - 1;
    assert SomeTold(lex, After(lex, steps[..n]), After(lex, steps), steps[n].ctx, i);
    var t, s :| Told(lex, After(lex, steps[..n]), After(lex, steps), steps[n].ctx, i, t, s);
    assert WrittenAt(lex, steps, i, n, t, s);
  }

  lemma {:induction false} HistoryLogged(lex: Lexicon, steps: seq<Step>)
    ensures BindingsLogged(After(lex, steps))
    decreases |steps|
  {
    hide BindingsLogged, Committed, Stepped, Story, Claimed, Refs;
    if steps == [] {
      EmptyLogged();
    } else {
      var n := |steps| - 1;
      var before := After(lex, steps[..n]);
      HistoryLogged(lex, steps[..n]);
      HistoryClaims(lex, steps[..n]);
      if steps[n].ReconcileCourse? {
        RunStepStory(lex, before, steps[n]);
        StoryLogged(lex, before, After(lex, steps), steps[n].ctx);
      } else {
        OtherStepLog(lex, before, steps[n]);
      }
    }
  }

  lemma EmptyLogged()
    ensures BindingsLogged(EMPTY)
  {
  }

  lemma StoryLogged(lex: Lexicon, t0: Tables, u: Tables, ctx: Context)
    requires Story(lex, t0, u, ctx)
    ensures BindingsLogged(t0) ==> BindingsLogged(u)
  {
  }

  /** A source was bound to its event by a merge, on top of a store in which it was tied to that event of its course and
      to no other. */
  ghost predicate MergedInto(lex: Lexicon, steps: seq<Step>, s: nat, e: nat, j: int, t: Tables) {
    && 0 <= j < |steps| && steps[j].ReconcileCourse? && Refs(t) && s < |t.sources|
    && Keeps(After(lex, steps[..j]), t) && Keeps(t, After(lex, steps))
    && t.sources[s].event.None? && OnlyFits(lex, t, steps[j].ctx, s, e)
  }

  /** The event was founded for the source. */
  ghost predicate FoundedFor(t: Tables, s: nat, e: nat) {
    s < |t.sources| && exists i :: Binds(t, s, i) && t.decisions[i].verdict.Created? && t.decisions[i].event == Some(e)
  }

  /** In a history without identity decisions every bound source founded its event or was tied to it when it joined: a
      shared title alone binds nothing. */
  lemma HistoryTies(lex: Lexicon, steps: seq<Step>, s: nat, e: nat)
    requires forall j :: 0 <= j < |steps| ==> !steps[j].DecideIdentity?
    ensures var t := After(lex, steps);
            s < |t.sources| && t.sources[s].event == Some(e) ==>
              FoundedFor(t, s, e) || exists j, before :: MergedInto(lex, steps, s, e, j, before)
  {
    hide Committed, Stepped, Story, Claimed, Refs, Keeps, Told, Judged, After, TitlesQuiet;
    var u := After(lex, steps);
    HistoryLogged(lex, steps);
    HistoryTitles(lex, steps);
    NoIdentities(lex, u);
    if s < |u.sources| && u.sources[s].event == Some(e) {
      var i :| Binds(u, s, i);
      if u.decisions[i].verdict.Merged? {
        HistoryVerdicts(lex, steps, i);
        var j, t, r :| WrittenAt(lex, steps, i, j, t, r);
        MergeRow(lex, steps, s, e, i, j, t, r);
      }
    }
  }

  lemma NoIdentities(lex: Lexicon, t: Tables)
    requires TitlesQuiet(lex, t)
    ensures t.manualIdentities == []
  {
  }

  lemma MergeRow(lex: Lexicon, steps: seq<Step>, s: nat, e: nat, i: int, j: int, t: Tables, r: nat)
    requires WrittenAt(lex, steps, i, j, t, r)
    requires var u := After(lex, steps);
             s < |u.sources| && u.sources[s].event == Some(e) && Binds(u, s, i) && u.decisions[i].verdict.Merged?
    ensures MergedInto(lex, steps, s, e, j, t)
  {
    hide After, OnlyFits, Like;
    var u := After(lex, steps);
    SoundRefs(lex, t);
    OneSource(lex, t, u, s, r);
    CommittedSound(lex, u);
  }

  /** Sources are known by their candidate. */
  lemma OneSource(lex: Lexicon, t: Tables, u: Tables, s: nat, r: nat)
    requires Keeps(t, u) && Sound(lex, u) && s < |u.sources| && r < |t.sources|
    requires u.sources[s].candidate == t.sources[r].candidate
    ensures s == r
  {
    assert SourceKept(t.sources[r], u.sources[r]);
    hide ClaimsOk, EdgesOk, ConflictsOk, ProjectionsOk, ManualFieldsOk, ManualIdentitiesOk, SourceOk;
  }
}
