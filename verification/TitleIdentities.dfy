/** What the identity of a title keeps of its wording (events/_matching.py:29-60). */
module TitleIdentities {
  import opened Basics
  import opened Matching
  import opened Decimals

  /** The first number of a title. */
  predicate NumberAt(tokens: seq<Token>, i: nat) {
    i < |tokens| && tokens[i].Digits? && forall j :: 0 <= j < i ==> !tokens[j].Digits?
  }

  /** The first event word of a title. */
  predicate WordAt(tokens: seq<Token>, i: nat) {
    i < |tokens| && tokens[i].text in EVENT_WORDS && forall j :: 0 <= j < i ==> tokens[j].text !in EVENT_WORDS
  }

  /** Homework is an assignment; otherwise event words are different things. */
  predicate SameThing(v: string, w: string) {
    v == w || (v == "homework" && w == "assignment") || (v == "assignment" && w == "homework")
  }

  lemma {:induction false} FirstNumberIs(tokens: seq<Token>, i: nat)
    requires NumberAt(tokens, i)
    ensures FirstNumber(tokens) == Some(tokens[i].number)
    decreases i
  {
    if i > 0 {
      assert !tokens[0].Digits?;
      forall j | 0 <= j < i - 1 ensures !tokens[1..][j].Digits? { assert tokens[1..][j] == tokens[j + 1]; }
      FirstNumberIs(tokens[1..], i - 1);
    }
  }

  lemma {:induction false} FirstWordIs(tokens: seq<Token>, i: nat)
    requires WordAt(tokens, i)
    ensures FirstEventWord(tokens) == Some(tokens[i].text)
    decreases i
  {
    if i > 0 {
      assert tokens[0].text !in EVENT_WORDS;
      forall j | 0 <= j < i - 1 ensures tokens[1..][j].text !in EVENT_WORDS { assert tokens[1..][j] == tokens[j + 1]; }
      FirstWordIs(tokens[1..], i - 1);
    }
  }

  lemma {:induction false} NoNumber(tokens: seq<Token>)
    ensures FirstNumber(tokens).None? <==> forall i :: 0 <= i < |tokens| ==> !tokens[i].Digits?
    decreases |tokens|
  {
    if tokens != [] {
      NoNumber(tokens[1..]);
      assert forall i :: 0 < i < |tokens| ==> tokens[i] == tokens[1..][i - 1];
    }
  }

  lemma {:induction false} NoWord(tokens: seq<Token>)
    ensures FirstEventWord(tokens).None? <==> forall i :: 0 <= i < |tokens| ==> tokens[i].text !in EVENT_WORDS
    decreases |tokens|
  {
    if tokens != [] {
      NoWord(tokens[1..]);
      assert forall i :: 0 < i < |tokens| ==> tokens[i] == tokens[1..][i - 1];
    }
  }

  lemma WordHasNoSpace(w: string)
    requires w in EVENT_WORDS
    ensures ' ' !in w && |w| > 0
  {
  }

  lemma SplitAtSpace(v: string, w: string, m: nat, n: nat)
    requires ' ' !in v && ' ' !in w && v + " " + Decimal(m) == w + " " + Decimal(n)
    ensures v == w && m == n
  {
    var text := v + " " + Decimal(m);
    assert text[|v|] == ' ' && text == w + " " + Decimal(n);
    assert forall i :: 0 <= i < |v| ==> text[i] == v[i];
    assert forall i :: 0 <= i < |w| ==> text[i] == w[i];
    assert text[|w|] == ' ';
    assert |v| == |w|;
    assert v == text[..|v|] == w;
    assert Decimal(m) == text[|v| + 1..] == Decimal(n);
    DecimalRoundTrip(m);
    DecimalRoundTrip(n);
  }

  /** Two titles with a number and an event word share an identity exactly if they share the number and speak of the
      same thing, whatever else they say; both also carry their number. */
  lemma NumberedTitles(lex: Lexicon, a: string, b: string, i: nat, j: nat, k: nat, l: nat)
    requires WordAt(lex.tokens(a), i) && NumberAt(lex.tokens(a), k)
    requires WordAt(lex.tokens(b), j) && NumberAt(lex.tokens(b), l)
    ensures var (x, y) := (TitleIdentity(lex, Text(a)), TitleIdentity(lex, Text(b)));
            && x.0 != "" && x.1 == Some(lex.tokens(a)[k].number)
            && (x.0 == y.0 <==>
                 SameThing(lex.tokens(a)[i].text, lex.tokens(b)[j].text) &&
                   lex.tokens(a)[k].number == lex.tokens(b)[l].number)
  {
    var (p, q) := (lex.tokens(a), lex.tokens(b));
    FirstWordIs(p, i);
    FirstWordIs(q, j);
    FirstNumberIs(p, k);
    FirstNumberIs(q, l);
    var v := if p[i].text == "homework" then "assignment" else p[i].text;
    var w := if q[j].text == "homework" then "assignment" else q[j].text;
    WordHasNoSpace(v);
    WordHasNoSpace(w);
    if v + " " + Decimal(p[k].number) == w + " " + Decimal(q[l].number) {
      SplitAtSpace(v, w, p[k].number, q[l].number);
    }
  }

  /** Any other title is identified by all its words, and a value that is no text by nothing. */
  lemma OtherTitles(lex: Lexicon, value: Json)
    ensures !value.Text? ==> TitleIdentity(lex, value) == ("", None)
    ensures value.Text? &&
            ((forall i :: 0 <= i < |lex.tokens(value.text)| ==> !lex.tokens(value.text)[i].Digits?) ||
             (forall i :: 0 <= i < |lex.tokens(value.text)| ==> lex.tokens(value.text)[i].text !in EVENT_WORDS)) ==>
              TitleIdentity(lex, value).0 == Join(lex.tokens(value.text))
    ensures value.Text? ==>
              (TitleIdentity(lex, value).1.None? <==>
                forall i :: 0 <= i < |lex.tokens(value.text)| ==> !lex.tokens(value.text)[i].Digits?)
  {
    if value.Text? {
      NoNumber(lex.tokens(value.text));
      NoWord(lex.tokens(value.text));
    }
  }

  /** Words as the tokenizer delivers them. */
  predicate Clean(tokens: seq<Token>) {
    forall i :: 0 <= i < |tokens| ==> tokens[i].text != "" && ' ' !in tokens[i].text
  }

  predicate SameWords(p: seq<Token>, q: seq<Token>) {
    |p| == |q| && forall i :: 0 <= i < |p| ==> p[i].text == q[i].text
  }

  /** Titles identified by all their words share an identity exactly if they have the same words. */
  lemma {:induction false} JoinedTitles(p: seq<Token>, q: seq<Token>)
    requires Clean(p) && Clean(q)
    ensures Join(p) == Join(q) <==> SameWords(p, q)
    decreases |p|
  {
    if p != [] && q != [] {
      JoinStarts(p);
      JoinStarts(q);
      JoinedTitles(p[1..], q[1..]);
      assert SameWords(p, q) <==> p[0].text == q[0].text && SameWords(p[1..], q[1..]) by {
        assert forall i :: 0 < i < |p| ==> p[i] == p[1..][i - 1];
        assert forall i :: 0 < i < |q| ==> q[i] == q[1..][i - 1];
      }
      if Join(p) == Join(q) {
        FirstWordOf(Join(p), p[0].text, q[0].text);
      }
    }
  }

  /** The joined words start with the first one, followed by nothing or by a space. */
  lemma JoinStarts(p: seq<Token>)
    requires Clean(p) && p != []
    ensures p[0].text <= Join(p)
    ensures if |p| == 1 then Join(p) == p[0].text && Join(p[1..]) == "" else
              |Join(p)| > |p[0].text| && Join(p)[|p[0].text|] == ' ' && Join(p)[|p[0].text| + 1..] == Join(p[1..])
  {
    if |p| > 1 {
      var text := p[0].text + " " + Join(p[1..]);
      assert text[|p[0].text|] == ' ' && text[|p[0].text| + 1..] == Join(p[1..]);
      assert text[..|p[0].text|] == p[0].text;
    }
  }

  lemma FirstWordOf(text: string, v: string, w: string)
    requires v <= text && w <= text && ' ' !in v && ' ' !in w
    requires |v| < |text| ==> text[|v|] == ' '
    requires |w| < |text| ==> text[|w|] == ' '
    ensures v == w
  {
    assert forall i :: 0 <= i < |v| ==> text[i] == v[i];
    assert forall i :: 0 <= i < |w| ==> text[i] == w[i];
    assert |v| == |w|;
    assert v == text[..|v|] == w;
  }
}
