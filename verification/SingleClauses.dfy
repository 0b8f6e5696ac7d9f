/** Which single clauses come back from a filter string: exact conditions for a positive
    term, a negative term and a positive list. */
module SingleClauses {
  import opened Options
  import opened Strings
  import opened Queries
  import opened QueryRoundTrip

  function Single(clause: Clause, negative: bool): BoolQuery {
    if negative then BoolQuery([], [clause]) else BoolQuery([clause], [])
  }

  /** A clause, printed and parsed on its own, comes back. */
  predicate ComesBack(clause: Clause, negative: bool) {
    ParseFilter(PrintFilter(Single(clause, negative))) == Single(clause, negative)
  }

  lemma SinglePrints(clause: Clause, negative: bool)
    requires PrintClause(clause, negative).Some?
    ensures PrintFilter(Single(clause, negative)) == PrintClause(clause, negative).value
  {
    var s := PrintClause(clause, negative).value;
    assert [clause][..0] == [];
    assert PrintClauses([clause], negative) == [s] && PrintClauses([], !negative) == [];
    assert [s] + [] == [s] && [] + [s] == [s];
  }

  lemma {:induction false} OnePartPerClause(parts: seq<string>)
    ensures |ParseParts(parts).filter| + |ParseParts(parts).mustNot| == |parts|
  {
    if parts == [] {
    } else {
      OnePartPerClause(parts[..|parts| - 1]);
    }
  }

  /** A clause comes back exactly when its text is one part and parses to it. */
  lemma ComesBackIff(clause: Clause, negative: bool)
    requires PrintClause(clause, negative).Some? && PrintClause(clause, negative).value != ""
    ensures var s := PrintClause(clause, negative).value;
            ComesBack(clause, negative) <==> !Contains(s, AND) && ParsePart(s) == (negative, clause)
  {
    hide ParsePart, PrintFilter, ParseParts;
    var s := PrintClause(clause, negative).value;
    SinglePrints(clause, negative);
    if !Contains(s, AND) {
      OnePartParses(s);
    }
    if ComesBack(clause, negative) {
      OnePartPerClause(Split(s, AND));
    }
  }

  lemma AbsentInPieces(a: string, b: string, pattern: string)
    requires Absent(a + b, pattern)
    ensures Absent(a, pattern) && Absent(b, pattern)
  {
    forall i ensures !At(a, pattern, i) {
      if i <= |a| - |pattern| { AtPrefix(a, b, pattern, i); }
    }
    forall i ensures !At(b, pattern, i) {
      if i >= 0 { AtSuffix(a, b, pattern, i + |a|); }
    }
  }

  predicate IsOperator(op: string) {
    op == ":=" || op == ":!=" || op == ":=["
  }

  /** An operator is found where the field ends exactly if the field does not hold it. */
  lemma FieldEndsIff(f: string, op: string, v: string)
    requires IsOperator(op)
    ensures IndexOf(f + op + v, op) == Some(|f|) <==> !Contains(f, op)
  {
    var s := f + op + v;
    assert f + (op + v) == s;
    assert s[|f|..|f| + |op|] == op;
    forall j | 0 <= j < |f| ensures At(s, op, j) == At(f, op, j) {
      if At(s, op, j) {
        OperatorInside(f, op, v, j);
      }
      if j + |op| <= |f| {
        AtPrefix(f, op + v, op, j);
      }
    }
    if !Contains(f, op) {
      FirstAt(s, op, |f|);
    }
  }

  lemma OperatorInside(f: string, op: string, v: string, j: nat)
    requires IsOperator(op) && j < |f| && At(f + op + v, op, j)
    ensures j + |op| <= |f|
  {
    var s := f + op + v;
    assert s[|f|] == ':';
    if |f| < j + |op| {
      AtChar(s, op, j, |f| - j);
    }
  }

  /** The two pieces around an operator are field and value exactly if neither holds it. */
  lemma CutIff(f: string, op: string, v: string)
    requires IsOperator(op)
    ensures var pieces := Split(f + op + v, op);
            |pieces| > 1 && pieces[0] == f && pieces[1] == v <==> !Contains(f, op) && !Contains(v, op)
  {
    var s := f + op + v;
    FieldEndsIff(f, op, v);
    assert s[|f|..|f| + |op|] == op;
    assert At(s, op, |f|);
    FirstPieces(s, op);
    assert s[..|f|] == f && s[|f| + |op|..] == v;
    FirstPiece(v, op);
    hide Split;
    var i := IndexOf(s, op).value;
    if i != |f| {
      assert |s[..i]| != |f|;
    }
  }

  lemma FirstPieces(s: string, sep: string)
    requires sep != "" && Contains(s, sep)
    ensures var i, pieces := IndexOf(s, sep).value, Split(s, sep);
            |pieces| > 1 && pieces[0] == s[..i] && pieces[1] == Split(s[i + |sep|..], sep)[0]
  {
    hide IndexOf;
    var i := IndexOf(s, sep).value;
    var rest := Split(s[i + |sep|..], sep);
    assert Split(s, sep) == [s[..i]] + rest;
    hide Split;
  }

  lemma FirstPiece(v: string, sep: string)
    requires sep != ""
    ensures Split(v, sep)[0] == v <==> !Contains(v, sep)
    ensures Split(v, sep)[0] == v || |Split(v, sep)[0]| + |sep| <= |v|
  {
  }

  // ---------- terms ----------

  /** A positive term comes back exactly when field and value are clean and the value does
      not begin with a bracket. */
  lemma TermRoundTripIff(f: string, v: string)
    ensures ComesBack(Term(f, v), false) <==> Clean(f) && Clean(v) && !StartsList(v)
  {
    hide ParsePart, ComesBack, Clean;
    ComesBackIff(Term(f, v), false);
    if Clean(f) && Clean(v) && !StartsList(v) {
      TermInOnePart(f, v);
      PositiveTermParses(f, v);
    }
    if !Contains(f + ":=" + v, AND) && ParsePart(f + ":=" + v) == (false, Term(f, v)) {
      TermInOnePiece(f, v);
    }
  }

  lemma TermInOnePart(f: string, v: string)
    requires Clean(f) && Clean(v)
    ensures !Contains(f + ":=" + v, AND)
  {
    AbsentFront('=', v, AND);
    AbsentFromClause(f, ['='] + v, AND);
    assert f + ":=" + v == f + ":" + (['='] + v);
  }

  /** Had the term been cut anywhere else, it would not have come back. */
  lemma TermInOnePiece(f: string, v: string)
    requires !Contains(f + ":=" + v, AND) && ParsePart(f + ":=" + v) == (false, Term(f, v))
    ensures Clean(f) && Clean(v) && !StartsList(v)
  {
    var s := f + ":=" + v;
    AbsentInPieces(f + ":=", v, AND);
    AbsentInPieces(f, ":=", AND);
    AbsentInPieces(f + ":=", v, "!=");
    AbsentInPieces(f, ":=", "!=");
    CutIff(f, ":=", v);
    if StartsList(v) {
      assert s[|f|..|f| + 3] == ":=[";
      assert At(s, ":=[", |f|);
    }
  }

  /** A negative term comes back exactly when neither field nor value holds the negative
      operator or the separator of parts. */
  lemma NegativeTermRoundTripIff(f: string, v: string)
    ensures ComesBack(Term(f, v), true) <==> CleanNegated(f) && CleanNegated(v)
  {
    hide ComesBack, Split;
    var s := f + ":!=" + v;
    ComesBackIff(Term(f, v), true);
    assert s[|f| + 1..|f| + 3] == "!=";
    assert At(s, "!=", |f| + 1);
    CutIff(f, ":!=", v);
    OnePartIff(f, v);
  }

  lemma OnePartIff(f: string, v: string)
    ensures !Contains(f + ":!=" + v, AND) <==> !Contains(f, AND) && !Contains(v, AND)
  {
    assert f + ":!=" + v == f + ":" + (['!'] + (['='] + v));
    if !Contains(f, AND) && !Contains(v, AND) {
      AbsentFront('=', v, AND);
      AbsentFront('!', ['='] + v, AND);
      AbsentFromClause(f, ['!'] + (['='] + v), AND);
    }
    if !Contains(f + ":!=" + v, AND) {
      AbsentInPieces(f + ":!=", v, AND);
      AbsentInPieces(f, ":!=", AND);
    }
  }

  // ---------- lists ----------

  /** Closing brackets only at the end. */
  predicate BracketsAtEnd(s: string) {
    forall i, j :: 0 <= i < j < |s| && s[i] == ']' ==> s[j] == ']'
  }

  /** A text without the separator of parts and the operators that a list must not hold. */
  predicate CleanList(s: string) {
    !Contains(s, AND) && !Contains(s, "!=") && !Contains(s, ":=[")
  }

  /** Removing the first closing bracket removes the last one exactly if all are at the end. */
  lemma ClosingIff(inner: string)
    ensures ReplaceFirst(inner + "]", "]", "") == inner <==> BracketsAtEnd(inner)
  {
    var s := inner + "]";
    assert s[|inner|..|inner| + 1] == "]";
    assert At(s, "]", |inner|);
    var k := IndexOf(s, "]").value;
    assert s[k..k + 1] == "]" && s[k] == ']';
    forall j | 0 <= j < k ensures s[j] != ']' {
      assert !At(s, "]", j) && s[j..j + 1] == [s[j]];
    }
    var cut := s[..k] + s[k + 1..];
    assert ReplaceFirst(s, "]", "") == cut;
    if BracketsAtEnd(inner) {
      forall j | k <= j < |s| ensures s[j] == ']' {
        if k < j < |inner| {
          assert inner[k] == ']' && inner[j] == s[j];
        }
      }
      assert |cut| == |inner|;
      forall j | 0 <= j < |inner| ensures cut[j] == inner[j] {
        assert cut[j] == if j < k then s[j] else s[j + 1];
      }
    }
    if cut == inner {
      forall j | k <= j < |s| ensures s[j] == ']' {
        AllClose(s, k, j);
      }
    }
  }

  lemma {:induction false} AllClose(s: string, k: nat, j: nat)
    requires k <= j < |s| && s[k] == ']' && s[..k] + s[k + 1..] == s[..|s| - 1]
    ensures s[j] == ']'
  {
    if j == k {
    } else {
      AllClose(s, k, j - 1);
      assert (s[..k] + s[k + 1..])[j - 1] == s[j];
    }
  }

  lemma ListOnePartIff(f: string, inner: string, pattern: string)
    requires pattern == AND || pattern == "!="
    ensures !Contains(f + ":=[" + (inner + "]"), pattern) <==> !Contains(f, pattern) && !Contains(inner, pattern)
  {
    var s := f + ":=[" + (inner + "]");
    assert s == f + ":" + (['='] + (['['] + (inner + "]")));
    if !Contains(f, pattern) && !Contains(inner, pattern) {
      AbsentAcross(inner, ']', "", pattern);
      assert inner + [']'] + "" == inner + "]";
      AbsentFront('[', inner + "]", pattern);
      AbsentFront('=', ['['] + (inner + "]"), pattern);
      AbsentFromClause(f, ['='] + (['['] + (inner + "]")), pattern);
    }
    if !Contains(s, pattern) {
      AbsentInPieces(f + ":=[", inner + "]", pattern);
      AbsentInPieces(f, ":=[", pattern);
      AbsentInPieces(inner, "]", pattern);
    }
  }

  /** What a list is cut into: its field and the items it was made of, exactly if the text
      of the items holds no operator and closes at its end, and no item has a comma. */
  lemma ListCutIff(f: string, vs: seq<string>)
    ensures var inner := Join(vs, ",");
            var pieces := Split(f + ":=[" + (inner + "]"), ":=[");
            && |pieces| > 1
            && (pieces[0] == f && Split(ReplaceFirst(pieces[1], "]", ""), ",") == vs <==>
                  && !Contains(f, ":=[") && !Contains(inner, ":=[") && BracketsAtEnd(inner)
                  && vs != [] && forall i :: 0 <= i < |vs| ==> ',' !in vs[i])
  {
    hide ReplaceFirst, BracketsAtEnd;
    var inner := Join(vs, ",");
    var s := f + ":=[" + (inner + "]");
    var pieces := Split(s, ":=[");
    assert s[|f|..|f| + 3] == ":=[";
    assert At(s, ":=[", |f|);
    CutIff(f, ":=[", inner + "]");
    ClosingIff(inner);
    InnerOperatorIff(inner);
    if vs != [] && forall i :: 0 <= i < |vs| ==> ',' !in vs[i] {
      ItemsSplit(vs);
    }
    if pieces[0] == f && Split(ReplaceFirst(pieces[1], "]", ""), ",") == vs {
      SecondPieceWhole(f, vs);
      JoinSplit(ReplaceFirst(pieces[1], "]", ""), ",");
      SplitHasNoComma(inner);
    }
  }

  lemma InnerOperatorIff(inner: string)
    ensures !Contains(inner + "]", ":=[") <==> !Contains(inner, ":=[")
  {
    if !Contains(inner, ":=[") {
      AbsentAcross(inner, ']', "", ":=[");
      assert inner + [']'] + "" == inner + "]";
    }
    if !Contains(inner + "]", ":=[") {
      AbsentInPieces(inner, "]", ":=[");
    }
  }

  lemma {:induction false} SplitHasNoComma(s: string)
    ensures forall i :: 0 <= i < |Split(s, ",")| ==> ',' !in Split(s, ",")[i]
    decreases |s|
  {
    var i := IndexOf(s, ",");
    if i.None? {
      CharAbsent(s, ',');
    } else {
      var front := s[..i.value];
      SplitHasNoComma(s[i.value + 1..]);
      forall j | 0 <= j < |front| ensures front[j] != ',' {
        assert !At(s, ",", j) && s[j..j + 1] == [s[j]];
      }
    }
  }

  /** Had the text of the items been cut, what is left would be too short for them. */
  lemma SecondPieceWhole(f: string, vs: seq<string>)
    requires var pieces := Split(f + ":=[" + (Join(vs, ",") + "]"), ":=[");
             |pieces| > 1 && pieces[0] == f && Split(ReplaceFirst(pieces[1], "]", ""), ",") == vs
    ensures Split(f + ":=[" + (Join(vs, ",") + "]"), ":=[")[1] == Join(vs, ",") + "]"
  {
    var inner := Join(vs, ",");
    var s := f + ":=[" + (inner + "]");
    var pieces := Split(s, ":=[");
    assert s[|f|..|f| + 3] == ":=[";
    assert At(s, ":=[", |f|);
    FirstPieces(s, ":=[");
    var i := IndexOf(s, ":=[").value;
    assert |s[..i]| == |f| && s[i + 3..] == inner + "]";
    JoinSplit(ReplaceFirst(pieces[1], "]", ""), ",");
    assert |inner| <= |pieces[1]|;
    FirstPiece(inner + "]", ":=[");
  }

  /** A positive list comes back exactly when it has items, no item has a comma, and field
      and items hold no separator of parts and no operator, and no closing bracket that
      anything but closing brackets follows. */
  lemma ListRoundTripIff(f: string, vs: seq<string>)
    ensures ComesBack(Terms(f, vs), false) <==>
              && CleanList(f) && CleanList(Join(vs, ",")) && BracketsAtEnd(Join(vs, ","))
              && vs != [] && forall i :: 0 <= i < |vs| ==> ',' !in vs[i]
  {
    hide ComesBack, Split, ReplaceFirst, BracketsAtEnd;
    var inner := Join(vs, ",");
    var s := f + ":=[" + (inner + "]");
    assert PrintClause(Terms(f, vs), false).value == s;
    ComesBackIff(Terms(f, vs), false);
    ListOnePartIff(f, inner, AND);
    ListOnePartIff(f, inner, "!=");
    ListCutIff(f, vs);
    assert s[|f|..|f| + 3] == ":=[";
    assert At(s, ":=[", |f|);
  }

  // ---------- clauses that do not come back ----------

  /** A term without a value is printed as the text `undefined`, and comes back as a term
      with that text. */
  lemma NoValueBecomesText(f: string, negative: bool)
    ensures PrintFilter(Single(NoValue(f), negative)) == PrintFilter(Single(Term(f, "undefined"), negative))
  {
    SinglePrints(NoValue(f), negative);
    SinglePrints(Term(f, "undefined"), negative);
  }

  /** A clause that is neither term nor terms is dropped, wherever it stands. */
  lemma {:induction false} OthersAreDropped(before: seq<Clause>, rest: seq<Clause>, negative: bool)
    ensures PrintClauses(before + [Other] + rest, negative) == PrintClauses(before + rest, negative)
    decreases |rest|
  {
    if rest == [] {
      assert before + rest == before && before + [Other] + rest == before + [Other];
      assert (before + [Other])[..|before|] == before;
    } else {
      var front, last := rest[..|rest| - 1], rest[|rest| - 1];
      OthersAreDropped(before, front, negative);
      var all := before + [Other] + rest;
      assert all[..|all| - 1] == before + [Other] + front;
      assert (before + rest)[..|before + rest| - 1] == before + front;
    }
  }

  /** A part without an operator becomes a term without a value: a positive one, or a
      negative one if it holds `!=` all the same. */
  lemma NoOperatorNoValue(part: string)
    requires if Contains(part, "!=") then !Contains(part, ":!=") else !Contains(part, ":=")
    ensures ParsePart(part) == (Contains(part, "!="), NoValue(part))
  {
    if !Contains(part, "!=") {
      AbsentLonger(part, ":=", ":=[");
    }
  }
}
