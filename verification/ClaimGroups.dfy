/** The list algorithms behind claim grouping (events/reconciliation.py, `_claim_groups`,
    `_explicit_successor` and the `max` calls), proved against the set specification of `Grouping`. */
module ClaimGroups {
  import opened Basics
  import opened Matching
  import opened Grouping

  /** The lists that grouping extends in place, each identified by the signature it was opened for. */
  type Lists = map<Option<Signature>, seq<Row>>

  /** Claim rows as the query delivers them: in key order. */
  ghost predicate InKeyOrder(rows: seq<Row>) {
    forall i, j :: 0 <= i < j < |rows| ==> rows[i].key < rows[j].key
  }

  lemma KeyOrderDistinct(rows: seq<Row>)
    requires InKeyOrder(rows)
    ensures DistinctKeys(Elements(rows)) && NoDuplicates(rows)
  {
  }

  lemma HasMember<T>(q: seq<T>)
    ensures q == [] || q[0] in q
  {
  }

  // ----- the rows of one signature, in order

  ghost function WithSignature(rows: seq<Row>, s: Option<Signature>): (q: seq<Row>)
    ensures forall r :: r in q <==> r in rows && SignatureOf(r) == s
  {
    if rows == [] then []
    else
      var n := |rows| - 1;
      assert rows == rows[..n] + [rows[n]];
      WithSignature(rows[..n], s) + (if SignatureOf(rows[n]) == s then [rows[n]] else [])
  }

  lemma {:induction false} WithSignatureNoDuplicates(rows: seq<Row>, s: Option<Signature>)
    requires NoDuplicates(rows)
    ensures NoDuplicates(WithSignature(rows, s))
  {
    if rows != [] {
      WithSignatureNoDuplicates(rows[..|rows| - 1], s);
    }
  }

  lemma WithSignatureStep(rows: seq<Row>, i: nat, s: Option<Signature>)
    requires i < |rows|
    ensures WithSignature(rows[..i + 1], s) ==
            WithSignature(rows[..i], s) + (if SignatureOf(rows[i]) == s then [rows[i]] else [])
  {
    assert rows[..i + 1][..i] == rows[..i];
  }

  // ----- first stage: one list per signature

  /** `lists` holds, in `order`, the rows of every signature that occurs. */
  ghost predicate Strict(rows: seq<Row>, order: seq<Option<Signature>>, lists: Lists) {
    && NoDuplicates(order)
    && (forall s :: s in order <==> s in lists)
    && (forall s :: s in lists ==> lists[s] != [] && lists[s] == WithSignature(rows, s))
    && (forall r :: r in rows ==> SignatureOf(r) in lists)
  }

  lemma AppendedToList(rows: seq<Row>, i: nat, order: seq<Option<Signature>>, lists: Lists)
    requires i < |rows| && Strict(rows[..i], order, lists) && SignatureOf(rows[i]) in lists
    ensures var s := SignatureOf(rows[i]); Strict(rows[..i + 1], order, lists[s := lists[s] + [rows[i]]])
  {
    hide WithSignature;
    forall x {
      WithSignatureStep(rows, i, x);
    }
    assert rows[..i + 1] == rows[..i] + [rows[i]];
  }

  lemma OpenedList(rows: seq<Row>, i: nat, order: seq<Option<Signature>>, lists: Lists)
    requires i < |rows| && Strict(rows[..i], order, lists) && SignatureOf(rows[i]) !in lists
    ensures var s := SignatureOf(rows[i]); Strict(rows[..i + 1], order + [s], lists[s := [rows[i]]])
  {
    hide WithSignature;
    forall x {
      WithSignatureStep(rows, i, x);
    }
    assert rows[..i + 1] == rows[..i] + [rows[i]];
    var s := SignatureOf(rows[i]);
    var before := WithSignature(rows[..i], s);
    assert forall r :: r in before ==> r in rows[..i] && SignatureOf(r) in lists;
    HasMember(before);
  }

  /** `strict.setdefault(signature, []).append(row)` for every row. */
  method BySignature(rows: seq<Row>) returns (order: seq<Option<Signature>>, lists: Lists)
    ensures Strict(rows, order, lists)
  {
    order, lists := [], map[];
    for i := 0 to |rows|
      invariant Strict(rows[..i], order, lists)
    {
      var s := TemporalSignature(rows[i].value);
      if s in lists {
        AppendedToList(rows, i, order, lists);
        lists := lists[s := lists[s] + [rows[i]]];
      } else {
        OpenedList(rows, i, order, lists);
        order, lists := order + [s], lists[s := [rows[i]]];
      }
    }
    assert rows[..|rows|] == rows;
  }

  // ----- second stage: a day joins the only instant on it

  ghost predicate Folds(rows: seq<Row>, s: Option<Signature>) {
    Fold(Elements(rows), s) != s
  }

  function DaySignature(s: Option<Signature>): Option<Signature>
    requires s.Some? && s.value.Instant?
  {
    Some(Day(DayOf(s.value.at)))
  }

  /** What the handled signatures contribute to the list of `s`. */
  ghost function Joining(rows: seq<Row>, handled: set<Option<Signature>>, s: Option<Signature>): seq<Row> {
    if s.Some? && s.value.Instant? && DaySignature(s) in handled && Folds(rows, DaySignature(s))
    then WithSignature(rows, DaySignature(s))
    else []
  }

  /** The second stage after the signatures in `handled` were looked at. */
  ghost predicate Merged(rows: seq<Row>, handled: set<Option<Signature>>, order: seq<Option<Signature>>, lists: Lists) {
    && NoDuplicates(order)
    && (forall s :: s in lists <==> WithSignature(rows, s) != [])
    && (forall s :: s in order <==> s in lists && !(s in handled && Folds(rows, s)))
    && (forall s :: s in lists ==> lists[s] == WithSignature(rows, s) + Joining(rows, handled, s))
  }

  ghost predicate AllWellFormed(f: Field, rows: seq<Row>) {
    Temporal(f) && RowsWellFormed(f, Elements(rows))
  }

  /** With well-formed rows, full precision marks exactly the instants. */
  lemma HeadRank(f: Field, rows: seq<Row>, s: Option<Signature>)
    requires AllWellFormed(f, rows) && WithSignature(rows, s) != []
    ensures var head := WithSignature(rows, s)[0];
            && SignatureOf(head) == s
            && (PrecisionRank(head.precision) == 3 <==> s.Some? && s.value.Instant?)
  {
    var head := WithSignature(rows, s)[0];
    assert head in WithSignature(rows, s);
    assert head in Elements(rows);
  }

  predicate Fits(lists: Lists, partial: Option<Signature>, s: Option<Signature>)
    requires partial in lists && s in lists && lists[partial] != [] && lists[s] != []
  {
    && s != partial
    && PrecisionRank(lists[s][0].precision) > PrecisionRank(lists[partial][0].precision)
    && TemporalAgrees(lists[partial][0].value, lists[s][0].value)
  }

  /** The lists more precise than `partial` that agree with it. */
  method Compatible(order: seq<Option<Signature>>, lists: Lists, partial: Option<Signature>)
    returns (fitting: seq<Option<Signature>>)
    requires NoDuplicates(order) && partial in lists
    requires forall s :: s in order ==> s in lists
    requires forall s :: s in lists ==> lists[s] != []
    ensures NoDuplicates(fitting)
    ensures forall s :: s in fitting <==> s in order && Fits(lists, partial, s)
  {
    fitting := [];
    for i := 0 to |order|
      invariant NoDuplicates(fitting)
      invariant forall s :: s in fitting <==> s in order[..i] && Fits(lists, partial, s)
    {
      assert order[i] !in order[..i];
      if Fits(lists, partial, order[i]) {
        fitting := fitting + [order[i]];
      }
    }
  }

  method Partials(order: seq<Option<Signature>>, lists: Lists) returns (partials: seq<Option<Signature>>)
    requires NoDuplicates(order)
    requires forall s :: s in order ==> s in lists && lists[s] != []
    ensures NoDuplicates(partials)
    ensures forall s :: s in partials <==> s in order && PrecisionRank(lists[s][0].precision) < 3
  {
    partials := [];
    for i := 0 to |order|
      invariant NoDuplicates(partials)
      invariant forall s :: s in partials <==> s in order[..i] && PrecisionRank(lists[s][0].precision) < 3
    {
      assert order[i] !in order[..i];
      if PrecisionRank(lists[order[i]][0].precision) < PrecisionRank(Some(ExactTime)) {
        partials := partials + [order[i]];
      }
    }
  }

  function Without<T(==,!new)>(q: seq<T>, x: T): (r: seq<T>)
    ensures NoDuplicates(q) ==> NoDuplicates(r) && forall y :: y in r <==> y in q && y != x
  {
    if q == [] then []
    else if q[0] == x then q[1..]
    else
      var rest := Without(q[1..], x);
      assert NoDuplicates(q) ==> NoDuplicates(q[1..]) && q[0] !in q[1..];
      assert NoDuplicates(q) ==> q[0] !in rest;
      [q[0]] + rest
  }

  /** The fitting lists of a partial signature are the instants of its day. */
  lemma FitsExactly(f: Field, rows: seq<Row>, handled: set<Option<Signature>>, order: seq<Option<Signature>>,
                    lists: Lists, partial: Option<Signature>, s: Option<Signature>)
    requires AllWellFormed(f, rows) && Merged(rows, handled, order, lists)
    requires partial in lists && s in lists && !(partial.Some? && partial.value.Instant?)
    ensures lists[partial] != [] && lists[s] != []
    ensures Fits(lists, partial, s) <==>
            partial.Some? && partial.value.Day? && s.Some? && s.value.Instant? && DaySignature(s) == partial
  {
    hide WithSignature, Fold, InstantsOn, RowsWellFormed;
    HeadRank(f, rows, partial);
    HeadRank(f, rows, s);
  }

  /** The instants on a day are the signatures of the lists that fit it. */
  lemma FittingInstants(f: Field, rows: seq<Row>, handled: set<Option<Signature>>, order: seq<Option<Signature>>,
                        lists: Lists, day: string, at: string)
    requires AllWellFormed(f, rows) && Merged(rows, handled, order, lists)
    requires Some(Day(day)) in lists
    ensures forall s :: s in lists ==> lists[s] != []
    ensures at in InstantsOn(Elements(rows), day) <==>
            Some(Instant(at)) in order && Fits(lists, Some(Day(day)), Some(Instant(at)))
  {
    var s := Some(Instant(at));
    assert s in order <==> s in lists;
    if at in InstantsOn(Elements(rows), day) {
      var r :| r in rows && SignatureOf(r) == s && DayOf(at) == day;
      assert r in WithSignature(rows, s);
    }
    if s in lists {
      FitsExactly(f, rows, handled, order, lists, Some(Day(day)), s);
      var r := WithSignature(rows, s)[0];
      assert r in WithSignature(rows, s);
      assert r in Elements(rows);
    }
  }

  lemma OneElement(fitting: seq<Option<Signature>>, ats: set<string>)
    requires NoDuplicates(fitting)
    requires forall s :: s in fitting ==> s.Some? && s.value.Instant?
    requires forall at :: at in ats <==> Some(Instant(at)) in fitting
    ensures |fitting| == 1 <==> exists at :: ats == {at}
    ensures |fitting| == 1 ==> fitting[0].Some? && fitting[0].value.Instant? && ats == {fitting[0].value.at}
  {
    if |fitting| == 1 {
      assert fitting[0] in fitting;
      assert ats == {fitting[0].value.at};
    } else if |fitting| == 0 {
      assert forall at :: at !in ats;
    } else {
      assert fitting[0] in fitting && fitting[1] in fitting && fitting[0] != fitting[1];
      assert fitting[0].value.at in ats && fitting[1].value.at in ats;
    }
  }

  lemma FittingIsFold(f: Field, rows: seq<Row>, handled: set<Option<Signature>>, order: seq<Option<Signature>>,
                      lists: Lists, partial: Option<Signature>, fitting: seq<Option<Signature>>)
    requires AllWellFormed(f, rows) && Merged(rows, handled, order, lists)
    requires partial in lists && !(partial.Some? && partial.value.Instant?)
    requires NoDuplicates(fitting)
    requires forall s :: s in lists ==> lists[s] != []
    requires forall s :: s in fitting <==> s in order && Fits(lists, partial, s)
    ensures |fitting| == 1 <==> Folds(rows, partial)
    ensures |fitting| == 1 ==> Fold(Elements(rows), partial) == fitting[0]
  {
    hide WithSignature, Fits, InstantsOn, Joining, WellFormed, SignatureOf;
    forall s | s in fitting ensures partial.Some? && partial.value.Day? && s.Some? && s.value.Instant? {
      FitsExactly(f, rows, handled, order, lists, partial, s);
    }
    if partial.Some? && partial.value.Day? {
      forall at {
        FittingInstants(f, rows, handled, order, lists, partial.value.day, at);
      }
      OneElement(fitting, InstantsOn(Elements(rows), partial.value.day));
    } else {
      HasMember(fitting);
    }
  }

  lemma StrictIsMerged(rows: seq<Row>, order: seq<Option<Signature>>, lists: Lists)
    requires Strict(rows, order, lists)
    ensures Merged(rows, {}, order, lists)
  {
    forall s ensures s in lists <==> WithSignature(rows, s) != [] {
      var q := WithSignature(rows, s);
      assert |q| > 0 ==> q[0] in q;
    }
  }

  /** Handling a signature that stays a class of its own. */
  lemma KeptApart(rows: seq<Row>, handled: set<Option<Signature>>, order: seq<Option<Signature>>, lists: Lists,
                  partial: Option<Signature>)
    requires Merged(rows, handled, order, lists)
    requires !Folds(rows, partial)
    ensures Merged(rows, handled + {partial}, order, lists)
  {
    forall s | s in lists ensures Joining(rows, handled + {partial}, s) == Joining(rows, handled, s) {}
  }

  lemma OnlyInstantOfDay(rows: seq<Row>, day: string, at: string, other: string)
    requires Fold(Elements(rows), Some(Day(day))) == Some(Instant(at))
    requires WithSignature(rows, Some(Instant(other))) != [] && DayOf(other) == day
    ensures other == at
  {
    hide WithSignature;
    var R := Elements(rows);
    var r := WithSignature(rows, Some(Instant(other)))[0];
    assert r in WithSignature(rows, Some(Instant(other)));
    assert r in R;
    assert other in InstantsOn(R, day);
  }

  lemma InstantOfDay(rows: seq<Row>, day: string, at: string)
    requires Fold(Elements(rows), Some(Day(day))) == Some(Instant(at))
    ensures DayOf(at) == day && WithSignature(rows, Some(Instant(at))) != []
  {
    hide WithSignature;
    var R := Elements(rows);
    assert at in InstantsOn(R, day);
    var r :| r in R && SignatureOf(r) == Some(Instant(at));
    assert r in WithSignature(rows, Some(Instant(at)));
  }

  /** Handling a day that joins its only instant. */
  lemma JoinedDay(rows: seq<Row>, handled: set<Option<Signature>>, order: seq<Option<Signature>>, lists: Lists,
                  day: string, at: string)
    requires Merged(rows, handled, order, lists)
    requires Some(Day(day)) !in handled && Some(Day(day)) in lists
    requires Fold(Elements(rows), Some(Day(day))) == Some(Instant(at))
    ensures Some(Instant(at)) in lists
    ensures var partial, target := Some(Day(day)), Some(Instant(at));
            Merged(rows, handled + {partial}, Without(order, partial),
                   lists[target := lists[target] + lists[partial]])
  {
    hide WithSignature, Without, InstantsOn;
    var partial, target := Some(Day(day)), Some(Instant(at));
    InstantOfDay(rows, day, at);
    var lists' := lists[target := lists[target] + lists[partial]];
    forall s | s in lists' ensures lists'[s] == WithSignature(rows, s) + Joining(rows, handled + {partial}, s) {
      if s == target {
        assert Joining(rows, handled, s) == [];
        assert Joining(rows, handled, partial) == [];
      } else {
        if s.Some? && s.value.Instant? && DayOf(s.value.at) == day {
          OnlyInstantOfDay(rows, day, at, s.value.at);
        }
        assert Joining(rows, handled + {partial}, s) == Joining(rows, handled, s);
      }
    }
  }

  lemma MergedShape(rows: seq<Row>, handled: set<Option<Signature>>, order: seq<Option<Signature>>, lists: Lists)
    requires Merged(rows, handled, order, lists)
    ensures NoDuplicates(order)
    ensures forall s :: s in order ==> s in lists
    ensures forall s :: s in lists ==> lists[s] != []
  {
  }

  lemma PartialsAreNotInstants(f: Field, rows: seq<Row>, order: seq<Option<Signature>>, lists: Lists,
                               partials: seq<Option<Signature>>)
    requires AllWellFormed(f, rows) && Strict(rows, order, lists)
    requires forall s :: s in partials <==> s in order && PrecisionRank(lists[s][0].precision) < 3
    ensures forall s :: s in partials <==> s in lists && !(s.Some? && s.value.Instant?)
  {
    hide WithSignature, WellFormed;
    forall s | s in lists {
      HeadRank(f, rows, s);
    }
  }

  /** One round of the merge loop. */
  lemma MergeRound(f: Field, rows: seq<Row>, handled: set<Option<Signature>>, order: seq<Option<Signature>>,
                   lists: Lists, partial: Option<Signature>, fitting: seq<Option<Signature>>)
    requires AllWellFormed(f, rows) && Merged(rows, handled, order, lists)
    requires partial in lists && partial !in handled && !(partial.Some? && partial.value.Instant?)
    requires NoDuplicates(fitting)
    requires forall s :: s in lists ==> lists[s] != []
    requires forall s :: s in fitting <==> s in order && Fits(lists, partial, s)
    ensures partial in order
    ensures |fitting| == 1 ==>
              fitting[0] in lists &&
              Merged(rows, handled + {partial}, Without(order, partial),
                     lists[fitting[0] := lists[fitting[0]] + lists[partial]])
    ensures |fitting| != 1 ==> Merged(rows, handled + {partial}, order, lists)
  {
    hide WithSignature, Fits, InstantsOn, WellFormed, Without;
    FittingIsFold(f, rows, handled, order, lists, partial, fitting);
    if |fitting| == 1 {
      JoinedDay(rows, handled, order, lists, partial.value.day, fitting[0].value.at);
    } else {
      KeptApart(rows, handled, order, lists, partial);
    }
  }

  ghost function NotInstants(signatures: set<Option<Signature>>): set<Option<Signature>> {
    set s | s in signatures && !(s.Some? && s.value.Instant?)
  }

  /** The merge loop of `_claim_groups` for temporal fields. */
  method MergeDays(f: Field, rows: seq<Row>, order0: seq<Option<Signature>>, lists0: Lists)
    returns (order: seq<Option<Signature>>, lists: Lists)
    requires AllWellFormed(f, rows) && Strict(rows, order0, lists0)
    ensures lists.Keys == lists0.Keys
    ensures Merged(rows, NotInstants(lists0.Keys), order, lists)
  {
    hide WithSignature, Fits, Folds, Joining, AllWellFormed, SignatureOf, Strict, Merged;
    order, lists := order0, lists0;
    StrictIsMerged(rows, order, lists);
    MergedShape(rows, {}, order, lists);
    var partials := Partials(order, lists);
    PartialsAreNotInstants(f, rows, order, lists, partials);
    ghost var handled: set<Option<Signature>> := {};
    for i := 0 to |partials|
      invariant lists.Keys == lists0.Keys
      invariant Merged(rows, handled, order, lists)
      invariant handled == set s | s in partials[..i]
    {
      var partial := partials[i];
      assert partial in partials && partial !in partials[..i];
      MergedShape(rows, handled, order, lists);
      var fitting := Compatible(order, lists, partial);
      MergeRound(f, rows, handled, order, lists, partial, fitting);
      if |fitting| == 1 && partial in order {
        lists := lists[fitting[0] := lists[fitting[0]] + lists[partial]];
        order := Without(order, partial);
      }
      handled := handled + {partial};
    }
    assert partials[..|partials|] == partials;
    assert handled == NotInstants(lists0.Keys);
  }

  /** Every row of a final list belongs to the class the list is named after, and no row is lost. */
  lemma MergedMembers(rows: seq<Row>, handled: set<Option<Signature>>, order: seq<Option<Signature>>, lists: Lists)
    requires Merged(rows, handled, order, lists) && handled == NotInstants(lists.Keys)
    ensures forall s, r :: s in order && r in lists[s] ==> r in rows && Fold(Elements(rows), SignatureOf(r)) == s
    ensures forall r :: r in rows ==>
              Fold(Elements(rows), SignatureOf(r)) in order && r in lists[Fold(Elements(rows), SignatureOf(r))]
  {
    hide WithSignature, InstantsOn;
    var R := Elements(rows);
    forall s, r | s in order && r in lists[s] ensures r in rows && Fold(R, SignatureOf(r)) == s {
      if r in Joining(rows, handled, s) {
        var day := DayOf(s.value.at);
        var at := Fold(R, Some(Day(day))).value.at;
        OnlyInstantOfDay(rows, day, at, s.value.at);
      }
    }
    forall r | r in rows ensures Fold(R, SignatureOf(r)) in order && r in lists[Fold(R, SignatureOf(r))] {
      var s := SignatureOf(r);
      HasMember(WithSignature(rows, s));
      assert r in WithSignature(rows, s);
      if Folds(rows, s) {
        var at := Fold(R, s).value.at;
        InstantOfDay(rows, s.value.day, at);
      }
    }
  }

  lemma JoinedNoDuplicates(rows: seq<Row>, handled: set<Option<Signature>>, order: seq<Option<Signature>>,
                           lists: Lists, s: Option<Signature>)
    requires Merged(rows, handled, order, lists) && NoDuplicates(rows) && s in lists
    ensures NoDuplicates(lists[s])
  {
    hide WithSignature, Folds;
    WithSignatureNoDuplicates(rows, s);
    var own, joining := WithSignature(rows, s), Joining(rows, handled, s);
    if joining != [] {
      WithSignatureNoDuplicates(rows, DaySignature(s));
    }
    forall i, j | 0 <= i < j < |own + joining| ensures (own + joining)[i] != (own + joining)[j] {
      if i < |own| <= j {
        assert own[i] in own && joining[j - |own|] in joining;
      }
    }
  }

  lemma MergedIsPartition(lex: Lexicon, f: Field, rows: seq<Row>, order: seq<Option<Signature>>, lists: Lists,
                          groups: seq<seq<Row>>)
    requires Temporal(f) && NoDuplicates(rows) && Merged(rows, NotInstants(lists.Keys), order, lists)
    requires |groups| == |order|
    requires forall i :: 0 <= i < |order| ==> order[i] in lists && groups[i] == lists[order[i]]
    ensures IsPartition(lex, f, Elements(rows), groups)
  {
    hide WithSignature, Fold, InstantsOn, SignatureOf, Joining, NoDuplicates;
    var R := Elements(rows);
    MergedMembers(rows, NotInstants(lists.Keys), order, lists);
    MergedShape(rows, NotInstants(lists.Keys), order, lists);
    forall i | 0 <= i < |groups| ensures groups[i] != [] && NoDuplicates(groups[i]) {
      JoinedNoDuplicates(rows, NotInstants(lists.Keys), order, lists, order[i]);
    }
    forall r | r in R ensures Placed(groups, r) {
      var i :| 0 <= i < |order| && order[i] == Fold(R, SignatureOf(r));
      assert r in groups[i];
    }
    assert forall i, r :: 0 <= i < |groups| && r in groups[i] ==> r in R && ClassOf(lex, f, R, r) == Moment(order[i]);
    NoDuplicatesInjective(order);
  }

  lemma NoDuplicatesInjective<T>(q: seq<T>)
    requires NoDuplicates(q)
    ensures forall i, j :: 0 <= i < |q| && 0 <= j < |q| && q[i] == q[j] ==> i == j
  {
  }

  /** `_claim_groups` for a temporal field. */
  method TemporalGroups(lex: Lexicon, f: Field, rows: seq<Row>) returns (groups: seq<seq<Row>>)
    requires AllWellFormed(f, rows) && NoDuplicates(rows)
    ensures IsPartition(lex, f, Elements(rows), groups)
  {
    hide Merged, IsPartition, RowsWellFormed, NoDuplicates;
    var order0, lists0 := BySignature(rows);
    var order, lists := MergeDays(f, rows, order0, lists0);
    MergedShape(rows, NotInstants(lists0.Keys), order, lists);
    groups := seq(|order|, i requires 0 <= i < |order| && order[i] in lists => lists[order[i]]);
    MergedIsPartition(lex, f, rows, order, lists, groups);
  }

  // ----- the other fields: a row joins the first group whose first row means the same

  ghost predicate Group(lex: Lexicon, f: Field, rows: seq<Row>, group: seq<Row>) {
    && group != [] && NoDuplicates(group)
    && (forall r :: r in group ==>
          && r in rows && (InKeyOrder(rows) ==> group[0].key <= r.key)
          && SemanticValue(lex, f, r.value) == SemanticValue(lex, f, group[0].value))
  }

  ghost predicate Gathered(lex: Lexicon, f: Field, rows: seq<Row>, groups: seq<seq<Row>>) {
    && (forall i :: 0 <= i < |groups| ==> Group(lex, f, rows, groups[i]))
    && (forall r :: r in rows ==> Placed(groups, r))
    && (forall i, j :: 0 <= i < j < |groups| ==> HeadsDiffer(lex, f, groups[i], groups[j]))
  }

  ghost predicate HeadsDiffer(lex: Lexicon, f: Field, g: seq<Row>, h: seq<Row>) {
    g != [] && h != [] && SemanticValue(lex, f, g[0].value) != SemanticValue(lex, f, h[0].value)
  }

  /** The first group whose head means the same as `r`, or past the end. */
  method FindGroup(lex: Lexicon, f: Field, groups: seq<seq<Row>>, r: Row) returns (k: nat)
    requires forall j :: 0 <= j < |groups| ==> groups[j] != []
    ensures k <= |groups|
    ensures k < |groups| ==> SemanticValue(lex, f, r.value) == SemanticValue(lex, f, groups[k][0].value)
    ensures forall j :: 0 <= j < k ==> HeadsDiffer(lex, f, groups[j], [r])
  {
    k := 0;
    while k < |groups| && SemanticValue(lex, f, r.value) != SemanticValue(lex, f, groups[k][0].value)
      invariant 0 <= k <= |groups|
      invariant forall j :: 0 <= j < k ==> HeadsDiffer(lex, f, groups[j], [r])
    {
      k := k + 1;
    }
  }

  lemma GroupsNonempty(lex: Lexicon, f: Field, rows: seq<Row>, groups: seq<seq<Row>>)
    requires Gathered(lex, f, rows, groups)
    ensures forall i :: 0 <= i < |groups| ==> groups[i] != []
  {
    assert forall i :: 0 <= i < |groups| ==> Group(lex, f, rows, groups[i]);
  }

  method SemanticGroups(lex: Lexicon, f: Field, rows: seq<Row>) returns (groups: seq<seq<Row>>)
    requires NoDuplicates(rows)
    ensures Gathered(lex, f, rows, groups)
  {
    groups := [];
    assert Gathered(lex, f, rows[..0], groups);
    hide Gathered, HeadsDiffer, SemanticValue, InKeyOrder;
    for i := 0 to |rows|
      invariant Gathered(lex, f, rows[..i], groups)
    {
      GroupsNonempty(lex, f, rows[..i], groups);
      var k := FindGroup(lex, f, groups, rows[i]);
      assert rows[..i + 1] == rows[..i] + [rows[i]];
      assert rows[i] !in rows[..i];
      if k < |groups| {
        GatheredInto(lex, f, rows[..i], rows[i], groups, k);
        groups := groups[k := groups[k] + [rows[i]]];
      } else {
        OpenedGroup(lex, f, rows[..i], rows[i], groups);
        groups := groups + [[rows[i]]];
      }
    }
    assert rows[..|rows|] == rows;
  }

  lemma KeyOrderPrefix(rows: seq<Row>, r: Row)
    requires InKeyOrder(rows + [r])
    ensures InKeyOrder(rows) && forall s :: s in rows ==> s.key < r.key
  {
    var all := rows + [r];
    assert all[|rows|] == r;
    forall i | 0 <= i < |rows| ensures all[i] == rows[i] {}
  }

  lemma GroupLater(lex: Lexicon, f: Field, rows: seq<Row>, r: Row, group: seq<Row>)
    requires Group(lex, f, rows, group)
    ensures Group(lex, f, rows + [r], group)
  {
    hide InKeyOrder, SemanticValue;
    if InKeyOrder(rows + [r]) {
      KeyOrderPrefix(rows, r);
    }
  }

  lemma GroupExtended(lex: Lexicon, f: Field, rows: seq<Row>, r: Row, group: seq<Row>)
    requires Group(lex, f, rows, group) && r !in rows
    requires SemanticValue(lex, f, r.value) == SemanticValue(lex, f, group[0].value)
    ensures Group(lex, f, rows + [r], group + [r])
  {
    hide SemanticValue, InKeyOrder;
    if InKeyOrder(rows + [r]) {
      KeyOrderPrefix(rows, r);
    }
    assert group[0] in group;
  }

  lemma PlacedLater(groups: seq<seq<Row>>, k: nat, g: seq<Row>, r: Row)
    requires Placed(groups, r) && k < |groups| && (r in groups[k] ==> r in g)
    ensures Placed(groups[k := g], r)
  {
    var i :| 0 <= i < |groups| && r in groups[i];
    assert r in groups[k := g][i];
  }

  lemma GatheredInto(lex: Lexicon, f: Field, rows: seq<Row>, r: Row, groups: seq<seq<Row>>, k: nat)
    requires Gathered(lex, f, rows, groups) && k < |groups| && r !in rows
    requires groups[k] != [] && SemanticValue(lex, f, r.value) == SemanticValue(lex, f, groups[k][0].value)
    ensures Gathered(lex, f, rows + [r], groups[k := groups[k] + [r]])
  {
    hide SemanticValue, Group, Placed;
    var groups' := groups[k := groups[k] + [r]];
    forall i | 0 <= i < |groups'| ensures Group(lex, f, rows + [r], groups'[i]) {
      if i == k {
        GroupExtended(lex, f, rows, r, groups[k]);
      } else {
        GroupLater(lex, f, rows, r, groups[i]);
      }
    }
    forall s | s in rows + [r] ensures Placed(groups', s) {
      if s in rows {
        PlacedLater(groups, k, groups[k] + [r], s);
      } else {
        IsPlaced(groups', k, s);
      }
    }
    forall i, j | 0 <= i < j < |groups'| ensures HeadsDiffer(lex, f, groups'[i], groups'[j]) {
      assert HeadsDiffer(lex, f, groups[i], groups[j]);
    }
  }

  lemma IsPlaced(groups: seq<seq<Row>>, k: nat, r: Row)
    requires k < |groups| && r in groups[k]
    ensures Placed(groups, r)
  {
  }

  lemma OpenedGroup(lex: Lexicon, f: Field, rows: seq<Row>, r: Row, groups: seq<seq<Row>>)
    requires Gathered(lex, f, rows, groups)
    requires forall j :: 0 <= j < |groups| ==> HeadsDiffer(lex, f, groups[j], [r])
    ensures Gathered(lex, f, rows + [r], groups + [[r]])
  {
    hide SemanticValue, Placed;
    var groups' := groups + [[r]];
    forall i | 0 <= i < |groups'| ensures Group(lex, f, rows + [r], groups'[i]) {
      if i < |groups| {
        GroupLater(lex, f, rows, r, groups[i]);
      }
    }
    forall s | s in rows + [r] ensures Placed(groups', s) {
      if s in rows {
        PlacedBefore(groups, [r], s);
      } else {
        IsPlaced(groups', |groups|, s);
      }
    }
    hide Group, HeadsDiffer;
    forall i, j | 0 <= i < j < |groups'| ensures HeadsDiffer(lex, f, groups'[i], groups'[j]) {}
  }

  lemma PlacedBefore(groups: seq<seq<Row>>, g: seq<Row>, r: Row)
    requires Placed(groups, r)
    ensures Placed(groups + [g], r)
  {
    var i :| 0 <= i < |groups| && r in groups[i];
    assert r in (groups + [g])[i];
  }

  lemma GatheredIsPartition(lex: Lexicon, f: Field, rows: seq<Row>, groups: seq<seq<Row>>)
    requires !Temporal(f) && Gathered(lex, f, rows, groups)
    ensures IsPartition(lex, f, Elements(rows), groups)
  {
    hide SemanticValue, Fold, NoDuplicates, Placed, Gathered, ClassOf;
    var R := Elements(rows);
    GatheredParts(lex, f, rows, groups);
    forall i, j, r, s | 0 <= i < |groups| && 0 <= j < |groups| && r in groups[i] && s in groups[j]
      ensures i == j <==> ClassOf(lex, f, R, r) == ClassOf(lex, f, R, s)
    {
      SameGroup(lex, f, rows, groups, i, j, r, s);
      PlainClass(lex, f, R, r);
      PlainClass(lex, f, R, s);
    }
  }

  lemma PlainClass(lex: Lexicon, f: Field, R: set<Row>, r: Row)
    requires !Temporal(f)
    ensures ClassOf(lex, f, R, r) == SemanticValue(lex, f, r.value)
  {
  }

  lemma GatheredParts(lex: Lexicon, f: Field, rows: seq<Row>, groups: seq<seq<Row>>)
    requires Gathered(lex, f, rows, groups)
    ensures forall i :: 0 <= i < |groups| ==> groups[i] != [] && NoDuplicates(groups[i])
    ensures forall i, r :: 0 <= i < |groups| && r in groups[i] ==> r in Elements(rows)
    ensures forall r :: r in Elements(rows) ==> Placed(groups, r)
  {
    hide SemanticValue, NoDuplicates, HeadsDiffer, Placed;
    forall i | 0 <= i < |groups|
      ensures groups[i] != [] && NoDuplicates(groups[i]) && forall r :: r in groups[i] ==> r in Elements(rows)
    {
      assert Group(lex, f, rows, groups[i]);
    }
  }

  lemma GatheredHeads(lex: Lexicon, f: Field, rows: seq<Row>, groups: seq<seq<Row>>, i: nat)
    requires !Temporal(f) && InKeyOrder(rows) && Gathered(lex, f, rows, groups) && i < |groups|
    ensures groups[i] != [] && IsHead(lex, f, Elements(rows), groups[i][0])
  {
    hide SemanticValue, Fold, NoDuplicates, HeadsDiffer;
    var R := Elements(rows);
    assert Group(lex, f, rows, groups[i]);
    HasMember(groups[i]);
    forall r | r in R && ClassOf(lex, f, R, r) == ClassOf(lex, f, R, groups[i][0])
      ensures groups[i][0].key <= r.key
    {
      assert Placed(groups, r);
      var j :| 0 <= j < |groups| && r in groups[j];
      SameGroup(lex, f, rows, groups, i, j, groups[i][0], r);
    }
  }

  lemma SameGroup(lex: Lexicon, f: Field, rows: seq<Row>, groups: seq<seq<Row>>, i: nat, j: nat, r: Row, s: Row)
    requires Gathered(lex, f, rows, groups)
    requires i < |groups| && j < |groups| && r in groups[i] && s in groups[j]
    ensures i == j <==> SemanticValue(lex, f, r.value) == SemanticValue(lex, f, s.value)
  {
    hide SemanticValue, Placed, NoDuplicates;
    assert Group(lex, f, rows, groups[i]) && Group(lex, f, rows, groups[j]);
    assert i < j ==> HeadsDiffer(lex, f, groups[i], groups[j]);
    assert j < i ==> HeadsDiffer(lex, f, groups[j], groups[i]);
  }

  /** `_claim_groups`: whatever the order of the rows, the lists are the classes of the claims; for rows in key
      order each list of a field that is not temporal starts with the first claim of its class. */
  method Groups(lex: Lexicon, f: Field, rows: seq<Row>) returns (groups: seq<seq<Row>>)
    requires NoDuplicates(rows) && RowsWellFormed(f, Elements(rows))
    ensures IsPartition(lex, f, Elements(rows), groups)
    ensures forall i :: 0 <= i < |groups| ==> groups[i] != []
    ensures !Temporal(f) && InKeyOrder(rows) ==> forall i :: 0 <= i < |groups| ==>
      IsHead(lex, f, Elements(rows), groups[i][0])
  {
    hide SemanticValue, WellFormed, IsPartition, IsHead, Gathered, InKeyOrder, NoDuplicates;
    if Temporal(f) {
      groups := TemporalGroups(lex, f, rows);
    } else {
      groups := SemanticGroups(lex, f, rows);
      GatheredIsPartition(lex, f, rows, groups);
      forall i | 0 <= i < |groups| && InKeyOrder(rows)
        ensures groups[i] != [] && IsHead(lex, f, Elements(rows), groups[i][0])
      {
        GatheredHeads(lex, f, rows, groups, i);
      }
    }
    PartitionNonempty(lex, f, Elements(rows), groups);
  }

  lemma PartitionNonempty(lex: Lexicon, f: Field, R: set<Row>, groups: seq<seq<Row>>)
    requires IsPartition(lex, f, R, groups)
    ensures forall i :: 0 <= i < |groups| ==> groups[i] != []
  {
  }
}
