/** The statements reconciliation executes against the event store. Preconditions are the constraints and
    guard triggers of storage/migrations/0007_event_reconciliation.sql, so a verified caller never trips one. */
module EventStore {
  import opened Basics
  import opened Matching
  import opened EventTables
  import opened Reconcile
  import opened Supersession

  class Store {
    var tables: Tables

    constructor ()
      ensures tables == EMPTY
    {
      tables := EMPTY;
    }

    /** Course and evidence integrity; one source per candidate. */
    method InsertSource(source: Source) returns (s: nat)
      requires source.candidate < |tables.candidates| && tables.candidates[source.candidate].course == source.course
      requires source.event.None? && !HasSource(tables, source.candidate)
      modifies this
      ensures s == |old(tables).sources|
      ensures tables == old(tables).(sources := old(tables).sources + [source])
    {
      s := |tables.sources|;
      tables := tables.(sources := tables.sources + [source]);
    }

    /** A source claim restates a field of its candidate and has the event of its source; a local claim has an event. */
    method InsertClaim(claim: Claim) returns (c: nat)
      requires claim.event.Some? ==> claim.event.value < |tables.events|
      requires match claim.origin
               case FromSource(s) =>
                 && s < |tables.sources| && tables.sources[s].candidate < |tables.candidates|
                 && IsField(tables.candidates[tables.sources[s].candidate], claim)
                 && (claim.event.None? || claim.event == tables.sources[s].event)
               case LocalDecision => claim.event.Some?
      modifies this
      ensures c == |old(tables).claims|
      ensures tables == old(tables).(claims := old(tables).claims + [claim])
    {
      c := |tables.claims|;
      tables := tables.(claims := tables.claims + [claim]);
    }

    /** A source is assigned only to an event of its course. */
    method AssignSource(s: nat, e: nat)
      requires s < |tables.sources| && e < |tables.events| && tables.events[e].course == tables.sources[s].course
      modifies this
      ensures tables == old(tables).(sources :=
        old(tables).sources[s := old(tables).sources[s].(event := Some(e), state := Matched)])
    {
      tables := tables.(sources := tables.sources[s := tables.sources[s].(event := Some(e), state := Matched)]);
    }

    /** The claims of a source follow it. */
    method AssignClaims(s: nat, e: nat)
      requires s < |tables.sources| && tables.sources[s].event == Some(e)
      modifies this
      ensures tables == old(tables).(claims := seq(|old(tables).claims|, c requires 0 <= c < |old(tables).claims| =>
                                                     Rebound(old(tables).claims[c], s, e)))
    {
      var claims := tables.claims;
      tables := tables.(claims := seq(|claims|, c requires 0 <= c < |claims| => Rebound(claims[c], s, e)));
    }

    method SetSourceState(s: nat, state: SourceState)
      requires s < |tables.sources|
      modifies this
      ensures tables == old(tables).(sources := old(tables).sources[s := old(tables).sources[s].(state := state)])
    {
      tables := tables.(sources := tables.sources[s := tables.sources[s].(state := state)]);
    }

    method DeletePossible(s: nat)
      modifies this
      ensures tables == old(tables).(possible := set p | p in old(tables).possible && p.0 != s)
    {
      tables := tables.(possible := set p | p in tables.possible && p.0 != s);
    }

    method InsertPossible(s: nat, e: nat)
      requires s < |tables.sources| && e < |tables.events| && (s, e) !in tables.possible
      modifies this
      ensures tables == old(tables).(possible := old(tables).possible + {(s, e)})
    {
      tables := tables.(possible := tables.possible + {(s, e)});
    }

    method InsertEvent(event: Event) returns (e: nat)
      modifies this
      ensures e == |old(tables).events|
      ensures tables == old(tables).(events := old(tables).events + [event])
    {
      e := |tables.events|;
      tables := tables.(events := tables.events + [event]);
    }

    method UpdateEvent(e: nat, event: Event)
      requires e < |tables.events| && event.course == tables.events[e].course
      modifies this
      ensures tables == old(tables).(events := old(tables).events[e := event])
    {
      tables := tables.(events := tables.events[e := event]);
    }

    method SetClaimState(c: nat, state: ClaimState)
      requires c < |tables.claims|
      modifies this
      ensures tables == old(tables).(claims := old(tables).claims[c := old(tables).claims[c].(state := state)])
    {
      tables := tables.(claims := tables.claims[c := tables.claims[c].(state := state)]);
    }

    /** Same event and field, and no way back from the predecessor: the recursive guard sees no cycle. */
    method InsertSupersession(successor: nat, predecessor: nat)
      requires successor < |tables.claims| && predecessor < |tables.claims|
      requires tables.claims[successor].event.Some? &&
        tables.claims[successor].event == tables.claims[predecessor].event
      requires tables.claims[successor].field == tables.claims[predecessor].field
      requires !Reaches(tables.supersessions, predecessor, successor)
      modifies this
      ensures tables == old(tables).(supersessions := old(tables).supersessions + {(successor, predecessor)})
    {
      tables := tables.(supersessions := tables.supersessions + {(successor, predecessor)});
    }

    method DeleteProjections(e: nat)
      modifies this
      ensures tables == old(tables).(projections :=
        map p | p in old(tables).projections && p.0 != e :: old(tables).projections[p])
    {
      tables := tables.(projections := map p | p in tables.projections && p.0 != e :: tables.projections[p]);
    }

    /** One projection per field, of an accepted claim of that event and field, with its value. */
    method InsertProjection(e: nat, f: Field, p: Projection)
      requires f in CANONICAL && (e, f) !in tables.projections && p.claim < |tables.claims|
      requires tables.claims[p.claim].event == Some(e) && tables.claims[p.claim].field == f
      requires tables.claims[p.claim].state.Accepted? && tables.claims[p.claim].value == p.value
      modifies this
      ensures tables == old(tables).(projections := old(tables).projections[(e, f) := p])
    {
      tables := tables.(projections := tables.projections[(e, f) := p]);
    }

    /** At most one open conflict per event and field. */
    method InsertConflict(e: nat, f: Field) returns (k: nat)
      requires e < |tables.events| && forall j :: 0 <= j < |tables.conflicts| ==> !OpenFor(tables, e, f, j)
      modifies this
      ensures k == |old(tables).conflicts|
      ensures tables == old(tables).(conflicts := old(tables).conflicts + [Conflict(e, f, true, {})])
    {
      k := |tables.conflicts|;
      tables := tables.(conflicts := tables.conflicts + [Conflict(e, f, true, {})]);
    }

    /** An alternative is a claim of the contested event and field, listed once. */
    method InsertAlternative(k: nat, c: nat)
      requires k < |tables.conflicts| && c < |tables.claims| && c !in tables.conflicts[k].alternatives
      requires tables.claims[c].event == Some(tables.conflicts[k].event) &&
        tables.claims[c].field == tables.conflicts[k].field
      modifies this
      ensures tables == old(tables).(conflicts := old(tables).conflicts[k := old(tables).conflicts[k].(
                alternatives := old(tables).conflicts[k].alternatives + {c})])
    {
      var conflict := tables.conflicts[k];
      tables := tables.(conflicts := tables.conflicts[k := conflict.(alternatives := conflict.alternatives + {c})]);
    }

    method RetireManualField(m: nat)
      requires m < |tables.manualFields|
      modifies this
      ensures tables == old(tables).(manualFields :=
        old(tables).manualFields[m := old(tables).manualFields[m].(active := false)])
    {
      tables := tables.(manualFields := tables.manualFields[m := tables.manualFields[m].(active := false)]);
    }

    /** One decision in force per field, naming a claim of that event and field. */
    method InsertManualField(manual: ManualField)
      requires manual.claim < |tables.claims| && manual.event < |tables.events| && manual.field in CANONICAL &&
        manual.active
      requires tables.claims[manual.claim].event == Some(manual.event) &&
        tables.claims[manual.claim].field == manual.field
      requires manual.local ==> tables.claims[manual.claim].origin.LocalDecision?
      requires forall m :: 0 <= m < |tables.manualFields| ==> !InForce(tables, manual.event, manual.field, m)
      modifies this
      ensures tables == old(tables).(manualFields := old(tables).manualFields + [manual])
    {
      tables := tables.(manualFields := tables.manualFields + [manual]);
    }

    method RetireManualIdentities(s: nat)
      modifies this
      ensures tables == old(tables).(manualIdentities :=
                seq(|old(tables).manualIdentities|, m requires 0 <= m < |old(tables).manualIdentities| =>
                  old(tables).manualIdentities[m].(
                    active := old(tables).manualIdentities[m].active && old(tables).manualIdentities[m].source != s)))
    {
      var rows := tables.manualIdentities;
      tables := tables.(manualIdentities := seq(|rows|, m requires 0 <= m < |rows| =>
                                                  rows[m].(active := rows[m].active && rows[m].source != s)));
    }

    /** One identity in force per source, inside its course. */
    method InsertManualIdentity(s: nat, e: nat)
      requires s < |tables.sources| && e < |tables.events| && tables.sources[s].course == tables.events[e].course
      requires !IdentityChosen(tables, s)
      modifies this
      ensures tables == old(tables).(manualIdentities := old(tables).manualIdentities + [ManualIdentity(s, e, true)])
    {
      tables := tables.(manualIdentities := tables.manualIdentities + [ManualIdentity(s, e, true)]);
    }

    /** A fingerprint is reconciled once per course and version of the resolver. */
    method InsertRun(course: nat, version: string, fingerprint: Fingerprint) returns (run: nat)
      requires Run(course, version, fingerprint) !in tables.runs
      modifies this
      ensures run == |old(tables).runs| &&
        tables == old(tables).(runs := old(tables).runs + [Run(course, version, fingerprint)])
    {
      run := |tables.runs|;
      tables := tables.(runs := tables.runs + [Run(course, version, fingerprint)]);
    }

    /** One decision per candidate and run. */
    method InsertDecision(decision: Decision)
      requires decision.run < |tables.runs| && decision.candidate < |tables.candidates|
      requires decision.event.Some? ==> decision.event.value < |tables.events|
      requires forall i :: 0 <= i < |tables.decisions| && tables.decisions[i].run == decision.run ==>
                 tables.decisions[i].candidate != decision.candidate
      modifies this
      ensures tables == old(tables).(decisions := old(tables).decisions + [decision])
    {
      tables := tables.(decisions := tables.decisions + [decision]);
    }
  }
}
