/** The choice made for one field of one event (events/reconciliation.py, the field loop of
    `_recompute_event`, `_explicit_successor` and the `max` calls), proved to follow `Grouping.Decide`. */
module FieldDecision {
  import opened Basics
  import opened Matching
  import opened Grouping
  import opened ClaimGroups

  /** `max` by precision, confidence and earlier key. */
  method Best(rows: seq<Row>) returns (best: Row)
    requires rows != [] && DistinctKeys(Elements(rows))
    ensures IsBest(Elements(rows), best)
  {
    best := rows[0];
    for i := 1 to |rows|
      invariant best in rows[..i]
      invariant forall s :: s in rows[..i] && s != best ==> Preferred(best, s)
    {
      assert rows[i] in Elements(rows) && best in Elements(rows);
      assert rows[..i + 1] == rows[..i] + [rows[i]];
      if Preferred(rows[i], best) {
        best := rows[i];
      }
    }
    assert rows[..|rows|] == rows;
  }

  /** `max` by source timestamp, then as `Best`. */
  method Newest(rows: seq<Row>) returns (newest: Row)
    requires rows != [] && DistinctKeys(Elements(rows))
    requires forall r :: r in rows ==> r.timestamp.Some?
    ensures newest in rows
    ensures forall s :: s in rows && s != newest ==> Above(newest, s)
  {
    newest := rows[0];
    for i := 1 to |rows|
      invariant newest in rows[..i]
      invariant forall s :: s in rows[..i] && s != newest ==> Above(newest, s)
    {
      assert rows[i] in Elements(rows) && newest in Elements(rows);
      assert rows[..i + 1] == rows[..i] + [rows[i]];
      if Above(rows[i], newest) {
        newest := rows[i];
      }
    }
    assert rows[..|rows|] == rows;
  }

  method Explicit(f: Field, group: seq<Row>) returns (explicit: seq<Row>)
    ensures forall r :: r in explicit <==> r in group && ExplicitChange(f, r)
  {
    explicit := [];
    for i := 0 to |group|
      invariant forall r :: r in explicit <==> r in group[..i] && ExplicitChange(f, r)
    {
      if ExplicitChange(f, group[i]) {
        explicit := explicit + [group[i]];
      }
    }
  }

  ghost predicate Elsewhere(groups: seq<seq<Row>>, i: nat, r: Row) {
    exists j :: 0 <= j < |groups| && j != i && r in groups[j]
  }

  method Others(groups: seq<seq<Row>>, i: nat) returns (others: seq<Row>)
    requires i < |groups|
    ensures forall r :: r in others <==> Elsewhere(groups, i, r)
  {
    others := [];
    for j := 0 to |groups|
      invariant forall r :: r in others <==> exists k :: 0 <= k < j && k != i && r in groups[k]
    {
      if j != i {
        others := others + groups[j];
      }
    }
  }

  /** A claim of group `i` that beats every other group. */
  ghost predicate Wins(f: Field, groups: seq<seq<Row>>, i: nat, w: Row)
    requires i < |groups|
  {
    && w in groups[i] && ExplicitChange(f, w)
    && (forall r :: r in groups[i] && ExplicitChange(f, r) && r != w ==> Above(w, r))
    && (exists r :: Elsewhere(groups, i, r))
    && (forall r :: Elsewhere(groups, i, r) ==>
          && r.timestamp.Some? && r.timestamp.value < w.timestamp.value
          && (Temporal(f) ==> PrecisionRank(r.precision) <= PrecisionRank(w.precision)))
  }

  /** In a partition, being elsewhere is being in another class. */
  lemma ElsewhereIsOtherClass(lex: Lexicon, f: Field, R: set<Row>, groups: seq<seq<Row>>, i: nat, w: Row, r: Row)
    requires IsPartition(lex, f, R, groups) && i < |groups| && w in groups[i]
    ensures Elsewhere(groups, i, r) <==> r in R && ClassOf(lex, f, R, r) != ClassOf(lex, f, R, w)
    ensures r in groups[i] <==> r in R && ClassOf(lex, f, R, r) == ClassOf(lex, f, R, w)
  {
    hide ClassOf, NoDuplicates;
    if r in R {
      assert Placed(groups, r);
      var j :| 0 <= j < |groups| && r in groups[j];
    }
  }

  lemma WinsIsSuccessor(lex: Lexicon, f: Field, R: set<Row>, groups: seq<seq<Row>>, i: nat, w: Row)
    requires IsPartition(lex, f, R, groups) && i < |groups| && w in groups[i]
    ensures Wins(f, groups, i, w) <==> IsSuccessor(lex, f, R, w)
  {
    assert w in R;
    forall r {
      ElsewhereIsOtherClass(lex, f, R, groups, i, w, r);
    }
    hide ClassOf, IsPartition, Elsewhere, Above;
  }

  /** The winner of group `i`, if it has one. */
  method Winner(f: Field, groups: seq<seq<Row>>, i: nat) returns (w: Option<Row>)
    requires i < |groups| && DistinctKeys(Elements(groups[i]))
    ensures w.Some? ==> Wins(f, groups, i, w.value)
    ensures w.None? ==> forall r :: r in groups[i] ==> !Wins(f, groups, i, r)
  {
    hide Elsewhere;
    var explicit := Explicit(f, groups[i]);
    if explicit == [] {
      return None;
    }
    var newest := Newest(explicit);
    assert forall r :: r in groups[i] && Wins(f, groups, i, r) ==> r == newest;
    var others := Others(groups, i);
    HasMember(others);
    if others == [] || exists r :: r in others && r.timestamp.None? {
      return None;
    }
    if exists r :: r in others && newest.timestamp.value <= r.timestamp.value {
      return None;
    }
    if Temporal(f) && exists r :: r in others && PrecisionRank(newest.precision) < PrecisionRank(r.precision) {
      return None;
    }
    return Some(newest);
  }

  ghost predicate Earlier(groups: seq<seq<Row>>, i: nat, r: Row) {
    exists j :: 0 <= j < i && j < |groups| && r in groups[j]
  }

  lemma EarlierNext(groups: seq<seq<Row>>, i: nat, r: Row)
    requires i < |groups|
    ensures Earlier(groups, i + 1, r) <==> Earlier(groups, i, r) || r in groups[i]
  {
  }

  lemma EarlierIsNotHere(lex: Lexicon, f: Field, R: set<Row>, groups: seq<seq<Row>>, i: nat, r: Row)
    requires IsPartition(lex, f, R, groups) && i < |groups|
    requires Earlier(groups, i, r)
    ensures r !in groups[i] && r in R
  {
    hide ClassOf;
    var j :| 0 <= j < i && r in groups[j];
    assert ClassOf(lex, f, R, r) == ClassOf(lex, f, R, r);
  }

  lemma AllEarlier(lex: Lexicon, f: Field, R: set<Row>, groups: seq<seq<Row>>, r: Row)
    requires IsPartition(lex, f, R, groups) && r in R
    ensures Earlier(groups, |groups|, r)
  {
    assert Placed(groups, r);
  }

  /** A second winner is impossible, whatever groups come first. */
  lemma NoSecondWinner(lex: Lexicon, f: Field, R: set<Row>, groups: seq<seq<Row>>, i: nat, winners: seq<Row>, w: Row)
    requires IsPartition(lex, f, R, groups) && i < |groups| && w in groups[i] && IsSuccessor(lex, f, R, w)
    requires forall v :: v in winners ==> IsSuccessor(lex, f, R, v) && Earlier(groups, i, v)
    ensures winners == []
  {
    hide IsPartition, Earlier;
    forall v | v in winners ensures v == w && v !in groups[i] {
      SuccessorUnique(lex, f, R, v, w);
      EarlierIsNotHere(lex, f, R, groups, i, v);
    }
    HasMember(winners);
  }

  lemma GroupKeysDistinct(lex: Lexicon, f: Field, R: set<Row>, groups: seq<seq<Row>>, i: nat)
    requires IsPartition(lex, f, R, groups) && DistinctKeys(R) && i < |groups|
    ensures DistinctKeys(Elements(groups[i]))
  {
    assert Elements(groups[i]) <= R;
  }

  /** `_explicit_successor` returns the one claim that can win, and nothing only if none can. */
  method ExplicitSuccessor(lex: Lexicon, f: Field, rows: seq<Row>) returns (successor: Option<Row>)
    requires NoDuplicates(rows) && DistinctKeys(Elements(rows)) && RowsWellFormed(f, Elements(rows))
    ensures successor.Some? ==> IsSuccessor(lex, f, Elements(rows), successor.value)
    ensures successor.None? ==> forall w :: !IsSuccessor(lex, f, Elements(rows), w)
  {
    ghost var R := Elements(rows);
    assert forall w :: IsSuccessor(lex, f, R, w) ==> w in R;
    hide IsSuccessor, Wins, Elsewhere, RowsWellFormed, IsPartition, DistinctKeys, Earlier;
    var groups := Groups(lex, f, rows);
    var winners: seq<Row> := [];
    forall w {
      NoneEarlier(groups, w);
    }
    for i := 0 to |groups|
      invariant |winners| <= 1
      invariant forall w :: w in winners ==> IsSuccessor(lex, f, R, w) && Earlier(groups, i, w)
      invariant forall w :: Earlier(groups, i, w) && IsSuccessor(lex, f, R, w) ==> w in winners
    {
      GroupKeysDistinct(lex, f, R, groups, i);
      var w := Winner(f, groups, i);
      forall r {
        EarlierNext(groups, i, r);
      }
      forall r | r in groups[i] {
        WinsIsSuccessor(lex, f, R, groups, i, r);
      }
      if w.Some? {
        WinsInGroup(f, groups, i, w.value);
        NoSecondWinner(lex, f, R, groups, i, winners, w.value);
        winners := winners + [w.value];
        forall v | v in groups[i] && IsSuccessor(lex, f, R, v) ensures v == w.value {
          SuccessorUnique(lex, f, R, v, w.value);
        }
      }
    }
    successor := if |winners| == 1 then Some(winners[0]) else None;
    forall w | w in R {
      AllEarlier(lex, f, R, groups, w);
    }
  }

  lemma NoneEarlier(groups: seq<seq<Row>>, r: Row)
    ensures !Earlier(groups, 0, r)
  {
  }

  lemma WinsInGroup(f: Field, groups: seq<seq<Row>>, i: nat, w: Row)
    requires i < |groups| && Wins(f, groups, i, w)
    ensures w in groups[i]
  {
  }

  // ----- the whole choice

  ghost predicate HeadsOf(lex: Lexicon, f: Field, R: set<Row>, groups: seq<seq<Row>>) {
    forall i :: 0 <= i < |groups| ==> groups[i] != [] && IsHead(lex, f, R, groups[i][0])
  }

  /** The first rows of the groups that name a specific type. */
  method SpecificTypes(groups: seq<seq<Row>>) returns (specific: seq<Row>)
    requires forall i :: 0 <= i < |groups| ==> groups[i] != []
    requires forall i, j :: 0 <= i < j < |groups| ==> groups[i][0] != groups[j][0]
    ensures NoDuplicates(specific)
    ensures forall h :: h in specific <==>
              exists i :: 0 <= i < |groups| && groups[i][0] == h && StringOf(h.value) != GENERIC
  {
    specific := [];
    for i := 0 to |groups|
      invariant NoDuplicates(specific)
      invariant forall h :: h in specific <==>
                  exists j :: 0 <= j < i && groups[j][0] == h && StringOf(h.value) != GENERIC
    {
      if StringOf(groups[i][0].value) != GENERIC {
        specific := specific + [groups[i][0]];
      }
    }
  }

  lemma HeadsDistinct(lex: Lexicon, f: Field, R: set<Row>, groups: seq<seq<Row>>)
    requires IsPartition(lex, f, R, groups)
    ensures forall i :: 0 <= i < |groups| ==> groups[i] != []
    ensures forall i, j :: 0 <= i < j < |groups| ==> groups[i][0] != groups[j][0]
  {
    hide ClassOf;
    forall i, j | 0 <= i < j < |groups| ensures groups[i][0] != groups[j][0] {
      assert groups[i][0] in groups[i] && groups[j][0] in groups[j];
      assert ClassOf(lex, f, R, groups[i][0]) != ClassOf(lex, f, R, groups[j][0]);
    }
  }

  lemma HeadIsGroupHead(lex: Lexicon, f: Field, R: set<Row>, groups: seq<seq<Row>>, h: Row)
    requires DistinctKeys(R) && IsPartition(lex, f, R, groups) && HeadsOf(lex, f, R, groups)
    ensures h in R && IsHead(lex, f, R, h) <==> exists i :: 0 <= i < |groups| && groups[i][0] == h
  {
    hide ClassOf, NoDuplicates;
    if h in R && IsHead(lex, f, R, h) {
      assert Placed(groups, h);
      var i :| 0 <= i < |groups| && h in groups[i];
      assert groups[i][0] in groups[i];
      assert groups[i][0] == h;
    }
  }

  /** One specific type among the groups is one specific head in the specification. */
  lemma SpecificIsHeads(lex: Lexicon, R: set<Row>, groups: seq<seq<Row>>, specific: seq<Row>)
    requires DistinctKeys(R) && IsPartition(lex, EventType, R, groups) && HeadsOf(lex, EventType, R, groups)
    requires NoDuplicates(specific)
    requires forall h :: h in specific <==>
               exists i :: 0 <= i < |groups| && groups[i][0] == h && StringOf(h.value) != GENERIC
    ensures |specific| == 1 ==> SpecificHeads(lex, R) == {specific[0]}
    ensures |specific| != 1 ==> forall h :: SpecificHeads(lex, R) != {h}
  {
    hide IsPartition, ClassOf, HeadsOf, IsHead;
    forall h {
      HeadIsGroupHead(lex, EventType, R, groups, h);
    }
    assert forall h :: h in specific <==> h in SpecificHeads(lex, R);
    HasMember(specific);
    if |specific| > 1 {
      assert specific[1] in specific && specific[0] != specific[1];
    }
  }

  lemma OneGroup(lex: Lexicon, f: Field, R: set<Row>, groups: seq<seq<Row>>)
    requires IsPartition(lex, f, R, groups) && |groups| == 1
    ensures Elements(groups[0]) == R && OneClass(lex, f, R)
  {
    hide ClassOf, NoDuplicates;
    forall x | x in R ensures x in groups[0] {
      assert Placed(groups, x);
    }
  }

  lemma ManyGroups(lex: Lexicon, f: Field, R: set<Row>, groups: seq<seq<Row>>)
    requires IsPartition(lex, f, R, groups) && |groups| > 1
    ensures !OneClass(lex, f, R)
  {
    hide ClassOf, NoDuplicates, Placed;
    var r, s := groups[0][0], groups[1][0];
    assert r in groups[0] && s in groups[1];
    assert ClassOf(lex, f, R, r) != ClassOf(lex, f, R, s);
  }

  lemma SomeGroup(lex: Lexicon, f: Field, R: set<Row>, groups: seq<seq<Row>>)
    requires IsPartition(lex, f, R, groups) && R != {}
    ensures groups != []
  {
    var r :| r in R;
    assert Placed(groups, r);
  }

  method FindKey(rows: seq<Row>, key: nat) returns (r: Option<Row>)
    ensures r.Some? ==> r.value in rows && r.value.key == key
    ensures r.None? ==> forall s :: s in rows ==> s.key != key
  {
    for i := 0 to |rows|
      invariant forall s :: s in rows[..i] ==> s.key != key
    {
      if rows[i].key == key {
        return Some(rows[i]);
      }
    }
    return None;
  }

  lemma DecideManual(lex: Lexicon, f: Field, R: set<Row>, key: nat, found: Option<Row>)
    requires DistinctKeys(R) && R != {}
    requires found.Some? ==> found.value in R && found.value.key == key
    requires found.None? ==> forall s :: s in R ==> s.key != key
    ensures Decide(lex, f, R, Some(key)) == if found.Some? then Chosen(found.value, false) else ManualMissing
  {
  }

  lemma DecideBest(lex: Lexicon, f: Field, R: set<Row>, best: Row)
    requires DistinctKeys(R) && OneClass(lex, f, R) && IsBest(R, best)
    requires f.EventType? ==> forall h :: SpecificHeads(lex, R) != {h}
    ensures Decide(lex, f, R, None) == Chosen(best, false)
  {
    hide OneClass;
    BestExists(R);
    forall r | IsBest(R, r) ensures r == best {
      BestUnique(R, r, best);
    }
  }

  lemma DecideSuccessor(lex: Lexicon, f: Field, R: set<Row>, successor: Option<Row>)
    requires DistinctKeys(R) && R != {} && !OneClass(lex, f, R)
    requires f.EventType? ==> forall h :: SpecificHeads(lex, R) != {h}
    requires successor.Some? ==> IsSuccessor(lex, f, R, successor.value)
    requires successor.None? ==> forall w :: !IsSuccessor(lex, f, R, w)
    ensures Decide(lex, f, R, None) == if successor.Some? then Chosen(successor.value, true) else Contested
  {
    hide IsSuccessor, OneClass;
    if successor.Some? {
      forall w | IsSuccessor(lex, f, R, w) ensures w == successor.value {
        SuccessorUnique(lex, f, R, w, successor.value);
      }
    }
  }

  /** The choice of `_recompute_event` for one field: exactly what is decided about the set of rows, so for every
      field but the event type the order in which they are delivered does not matter. */
  method DecideField(lex: Lexicon, f: Field, rows: seq<Row>, manual: Option<nat>) returns (outcome: Outcome)
    requires NoDuplicates(rows) && DistinctKeys(Elements(rows)) && RowsWellFormed(f, Elements(rows))
    requires f.EventType? ==> InKeyOrder(rows)
    ensures outcome == Decide(lex, f, Elements(rows), manual)
  {
    hide IsPartition, RowsWellFormed, OneClass, IsSuccessor, Decide, DistinctKeys, IsBest, SpecificHeads, Elements,
      InKeyOrder, IsHead, ClassOf, NoDuplicates;
    ghost var R := Elements(rows);
    RowsOrNone(lex, f, rows, manual);
    if rows == [] {
      return NoClaims;
    }
    if manual.Some? {
      var found := FindKey(rows, manual.value);
      DecideManual(lex, f, R, manual.value, found);
      return if found.Some? then Chosen(found.value, false) else ManualMissing;
    }
    var groups := Groups(lex, f, rows);
    if f.EventType? {
      HeadsDistinct(lex, f, R, groups);
      var specific := SpecificTypes(groups);
      SpecificIsHeads(lex, R, groups, specific);
      if |specific| == 1 {
        DecideSpecific(lex, R, specific[0]);
        return Chosen(specific[0], false);
      }
    }
    SomeGroup(lex, f, R, groups);
    if |groups| == 1 {
      OneGroup(lex, f, R, groups);
      var best := Best(groups[0]);
      DecideBest(lex, f, R, best);
      return Chosen(best, false);
    }
    ManyGroups(lex, f, R, groups);
    var successor := ExplicitSuccessor(lex, f, rows);
    DecideSuccessor(lex, f, R, successor);
    return if successor.Some? then Chosen(successor.value, true) else Contested;
  }

  lemma RowsOrNone(lex: Lexicon, f: Field, rows: seq<Row>, manual: Option<nat>)
    requires DistinctKeys(Elements(rows))
    ensures rows == [] ==> Decide(lex, f, Elements(rows), manual) == NoClaims
    ensures rows != [] ==> Elements(rows) != {}
    ensures forall r :: r in Elements(rows) <==> r in rows
  {
    hide OneClass, IsSuccessor;
    HasMember(rows);
    if rows != [] {
      assert rows[0] in Elements(rows);
    }
  }

  lemma DecideSpecific(lex: Lexicon, R: set<Row>, h: Row)
    requires DistinctKeys(R) && R != {} && SpecificHeads(lex, R) == {h}
    ensures Decide(lex, EventType, R, None) == Chosen(h, false)
  {
    hide OneClass, IsSuccessor;
    forall x | SpecificHeads(lex, R) == {x} ensures x == h {
      assert x in {h};
    }
  }
}
