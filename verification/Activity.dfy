/** Which extractions and claims count (events/_activity.py): of an input exactly one extraction for each extractor that
    ever came to a usable result, and a claim by its extraction or by hand. */
module Activity {
  import opened Basics
  import opened Matching
  import opened Grouping
  import opened EventTables
  import opened Histories

  /** Results of one extractor for one input. */
  predicate Rivals(t: Tables, x: nat, y: nat)
    requires x < |t.extractions| && y < |t.extractions|
  {
    t.extractions[x].input == t.extractions[y].input && t.extractions[x].extractor == t.extractions[y].extractor
  }

  ghost predicate TakesOver(t: Tables, x: nat, y: int)
    requires x < |t.extractions|
  {
    x <= y < |t.extractions| && Rivals(t, x, y) && Effective(t, y)
  }

  /** An unusable result never counts, and among rivals one counts as soon as one is usable: never one older than it. */
  lemma {:induction false} OneCounts(t: Tables, x: nat)
    requires x < |t.extractions|
    ensures Effective(t, x) ==> t.extractions[x].usable
    ensures t.extractions[x].usable ==> exists y :: TakesOver(t, x, y)
    ensures forall y: nat :: y < |t.extractions| && Rivals(t, x, y) && Effective(t, x) && Effective(t, y) ==> x == y
    decreases |t.extractions| - x
  {
    if t.extractions[x].usable && !Effective(t, x) {
      var y :| x < y < |t.extractions| && t.extractions[y].usable && Rivals(t, x, y);
      OneCounts(t, y);
      var z :| TakesOver(t, y, z);
      assert Rivals(t, x, y) && Rivals(t, y, z);
      assert TakesOver(t, x, z);
    } else if t.extractions[x].usable {
      assert TakesOver(t, x, x);
    }
  }

  /** A usable result ends the effect of its rivals and of nothing else; an unusable one changes nothing. */
  lemma IngestTakesOver(t: Tables, x: Extraction, cs: seq<Candidate>, y: nat)
    requires |Ingested(t, x, cs).extractions| > |t.extractions| && y <= |t.extractions|
    ensures var u, n := Ingested(t, x, cs), |t.extractions|;
            if y == n then Effective(u, n) <==> x.usable
            else Effective(u, y) <==> Effective(t, y) && !(x.usable && Rivals(u, y, n))
  {
    var u, n := Ingested(t, x, cs), |t.extractions|;
    assert u.extractions == t.extractions + [x];
    assert forall z :: 0 <= z < n ==> u.extractions[z] == t.extractions[z];
    assert u.extractions[n] == x;
  }

  /** A decision in force that vouches for the source: for what it is about, or by selecting any claim of it. */
  ghost predicate Vouched(t: Tables, s: nat)
    requires Refs(t)
  {
    || (exists identity :: identity in t.manualIdentities && identity.active && identity.source == s)
    || (exists manual :: manual in t.manualFields && manual.active && !manual.local &&
          manual.claim < |t.claims| && t.claims[manual.claim].origin == FromSource(s))
  }

  /** A claim of a source counts exactly if its source does, whichever of its claims is selected by hand; a local claim
      counts exactly while the decision that made it is in force. */
  lemma ActivityMeans(t: Tables, c: nat)
    requires Refs(t) && c < |t.claims|
    ensures match t.claims[c].origin
            case FromSource(s) =>
              && (ActiveClaim(t, c) <==> ActiveSource(t, s))
              && (ActiveClaim(t, c) <==> Effective(t, t.candidates[t.sources[s].candidate].extraction) || Vouched(t, s))
            case LocalDecision =>
              ActiveClaim(t, c) <==>
                exists manual :: manual in t.manualFields && manual.active && manual.local && manual.claim == c
  {
    hide Effective;
    assert forall m :: 0 <= m < |t.manualFields| ==> t.manualFields[m] in t.manualFields;
    assert forall m :: 0 <= m < |t.manualIdentities| ==> t.manualIdentities[m] in t.manualIdentities;
  }

  /** The row says what the claim says, and of its source the change it announces and the time it gives. */
  ghost predicate Tells(t: Tables, r: Row, c: int)
    requires Refs(t)
  {
    && 0 <= c < |t.claims| && r.key == c
    && r.value == t.claims[c].value && r.precision == t.claims[c].precision && r.confidence == t.claims[c].confidence
    && (t.claims[c].origin.LocalDecision? ==> r.change.None? && r.timestamp.None?)
    && (t.claims[c].origin.FromSource? ==>
          var source := t.sources[t.claims[c].origin.source];
          r.change == Some(source.change) && r.timestamp == source.timestamp)
  }

  /** A claim that counts, for this field of the event. */
  ghost predicate Counts(t: Tables, e: nat, f: Field, c: int)
    requires Refs(t)
  {
    0 <= c < |t.claims| && ActiveClaim(t, c) && t.claims[c].event == Some(e) && t.claims[c].field == f
  }

  /** The rows a field is decided by: one for each of its claims that count, and no other. */
  lemma RowsTell(t: Tables, e: nat, f: Field)
    requires Refs(t)
    ensures forall r :: r in FieldRows(t, e, f) ==> Counts(t, e, f, r.key) && Tells(t, r, r.key)
    ensures forall c :: Counts(t, e, f, c) ==> exists r :: r in FieldRows(t, e, f) && Tells(t, r, c)
  {
    hide ActiveClaim, Refs;
    FieldRowsDistinct(t, e, f);
    forall c | Counts(t, e, f, c) ensures exists r :: r in FieldRows(t, e, f) && Tells(t, r, c) {
      assert c in FieldClaims(t, e, f);
      assert Tells(t, RowOf(t, c), c);
    }
  }
}
