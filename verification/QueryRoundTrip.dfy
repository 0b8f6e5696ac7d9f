/** Printing a bool query to a filter string and parsing it back. */
module QueryRoundTrip {
  import opened Options
  import opened Strings
  import opened Queries

  // ---------- pieces that can be told apart again ----------

  /** A text that a positive term keeps in one piece. */
  predicate Clean(s: string) {
    !Contains(s, AND) && !Contains(s, "!=") && !Contains(s, ":=")
  }

  /** A text that a negative term keeps in one piece. */
  predicate CleanNegated(s: string) {
    !Contains(s, AND) && !Contains(s, ":!=")
  }

  predicate StartsList(value: string) {
    value != "" && value[0] == '['
  }

  /** A value that a list keeps in one piece. */
  predicate CleanItem(s: string) {
    !Contains(s, AND) && !Contains(s, "!=") && !Contains(s, ":=[") && ',' !in s && ']' !in s
  }

  /** No text but the last of a filter string may end like the beginning of ` && `. */
  predicate EndsOpen(value: string) {
    |value| >= 3 && value[|value| - 3..] == " &&"
  }

  predicate Printable(clause: Clause, negative: bool) {
    match clause
    case Term(f, v) =>
      Clean(f) && !EndsOpen(v) && if negative then CleanNegated(v) else Clean(v) && !StartsList(v)
    case Terms(f, vs) =>
      Clean(f) && !negative && vs != [] && forall i :: 0 <= i < |vs| ==> CleanItem(vs[i])
    case _ => false
  }

  ghost predicate PrintableQuery(q: BoolQuery) {
    && (forall i :: 0 <= i < |q.filter| ==> Printable(q.filter[i], false))
    && (forall i :: 0 <= i < |q.mustNot| ==> Printable(q.mustNot[i], true))
  }

  // ---------- one term ----------

  /** Nothing that lacks a colon or an equals sign crosses the operator of a clause. */
  lemma AbsentFromClause(f: string, rest: string, pattern: string)
    requires ':' !in pattern && pattern != "" && Absent(f, pattern) && Absent(rest, pattern)
    ensures Absent(f + ":" + rest, pattern)
  {
    AbsentAcross(f, ':', rest, pattern);
  }

  /** An operator that starts within the field lies within it. */
  lemma OperatorInField(f: string, op: string, v: string, j: nat)
    requires op == ":=" || op == ":!=" || op == ":=["
    requires j < |f| && At(f + op + v, op, j)
    ensures if op == ":!=" then At(f, "!=", j + 1) else At(f, ":=", j)
  {
    var s := f + op + v;
    var core, at := if op == ":!=" then "!=" else ":=", if op == ":!=" then j + 1 else j;
    AtChar(s, op, j, 0);
    AtChar(s, op, j, 1);
    if op == ":!=" {
      AtChar(s, op, j, 2);
    }
    assert s[|f|] == ':' && s[j] == ':' && s[at] == core[0] && s[at + 1] == core[1];
    assert at + 1 < |f|;
    assert f[at..at + 2] == core;
  }

  /** The operator of a clause is found where the field ends. */
  lemma OperatorAt(f: string, op: string, v: string)
    requires op == ":=" || op == ":!=" || op == ":=["
    requires Clean(f)
    ensures IndexOf(f + op + v, op) == Some(|f|)
  {
    var s := f + op + v;
    assert s[|f|..|f| + |op|] == op;
    forall j | 0 <= j < |f| ensures !At(s, op, j) {
      if At(s, op, j) {
        OperatorInField(f, op, v, j);
      }
    }
    FirstAt(s, op, |f|);
  }

  lemma SplitAtOperator(f: string, op: string, v: string)
    requires op == ":=" || op == ":!=" || op == ":=["
    requires Clean(f) && !Contains(v, op)
    ensures Split(f + op + v, op) == [f, v]
  {
    OperatorAt(f, op, v);
    var s := f + op + v;
    assert s[..|f|] == f && s[|f| + |op|..] == v;
  }

  lemma PositiveTermParses(f: string, v: string)
    requires Clean(f) && Clean(v) && !StartsList(v)
    ensures ParsePart(f + ":=" + v) == (false, Term(f, v))
  {
    var s := f + ":=" + v;
    assert s == f + ":" + (['='] + v);
    AbsentFront('=', v, "!=");
    AbsentFromClause(f, ['='] + v, "!=");
    forall j ensures !At(s, ":=[", j) {
      NoListInTerm(f, v, j);
    }
    SplitAtOperator(f, ":=", v);
  }

  lemma NoListInTerm(f: string, v: string, j: int)
    requires Clean(f) && Clean(v) && !StartsList(v)
    ensures !At(f + ":=" + v, ":=[", j)
  {
    var s := f + ":=" + v;
    if At(s, ":=[", j) {
      AtLonger(s, ":=", ":=[", j);
      AtChar(s, ":=[", j, 0);
      AtChar(s, ":=[", j, 2);
      OperatorAt(f, ":=", v);
      if j >= |f| + 2 {
        AtSuffix(f + ":=", v, ":=", j);
      }
    }
  }

  lemma NegativeTermParses(f: string, v: string)
    requires Printable(Term(f, v), true)
    ensures ParsePart(f + ":!=" + v) == (true, Term(f, v))
  {
    var s := f + ":!=" + v;
    assert s[|f| + 1..|f| + 3] == "!=";
    assert At(s, "!=", |f| + 1);
    SplitAtOperator(f, ":!=", v);
  }

  lemma CharAbsent(s: string, c: char)
    ensures c !in s <==> Absent(s, [c])
  {
    forall i | 0 <= i < |s| ensures At(s, [c], i) <==> s[i] == c {
      assert s[i..i + 1] == [s[i]];
    }
  }

  lemma {:induction false} CharInJoin(parts: seq<string>, sep: char, c: char)
    requires c != sep && forall i :: 0 <= i < |parts| ==> c !in parts[i]
    ensures c !in Join(parts, [sep])
  {
    if |parts| <= 1 {
    } else {
      CharInJoin(parts[1..], sep, c);
    }
  }

  lemma ItemsSplit(vs: seq<string>)
    requires vs != [] && forall i :: 0 <= i < |vs| ==> ',' !in vs[i]
    ensures Split(Join(vs, ","), ",") == vs
  {
    hide EndsAtSeparator, IndexOf, Contains, Split;
    forall i | 0 <= i < |vs| ensures EndsAtSeparator(vs[i], ",") && !Contains(vs[i], ",") {
      ItemEnds(vs[i]);
    }
    SplitJoinIff(vs, ",");
  }

  lemma ItemEnds(item: string)
    requires ',' !in item
    ensures EndsAtSeparator(item, ",") && !Contains(item, ",")
  {
    CharAbsent(item, ',');
    forall j | 0 <= j < |item| ensures !At(item + ",", ",", j) {
      AtPrefix(item, ",", ",", j);
    }
    assert (item + ",")[|item|..|item| + 1] == ",";
    FirstAt(item + ",", ",", |item|);
  }

  lemma ItemsAbsent(vs: seq<string>, pattern: string)
    requires pattern == "!=" || pattern == ":=[" || pattern == AND
    requires forall i :: 0 <= i < |vs| ==> CleanItem(vs[i])
    ensures Absent(Join(vs, ","), pattern) && Absent(Join(vs, ",") + "]", pattern)
  {
    assert Absent("", pattern);
    hide At, Join;
    AbsentInJoin(vs, ',', pattern);
    AbsentAcross(Join(vs, ","), ']', "", pattern);
    assert Join(vs, ",") + [']'] + "" == Join(vs, ",") + "]";
  }

  lemma CloseBracket(inner: string)
    requires ']' !in inner
    ensures ReplaceFirst(inner + "]", "]", "") == inner
  {
    CharAbsent(inner, ']');
    forall j | 0 <= j < |inner| ensures !At(inner + "]", "]", j) {
      AtPrefix(inner, "]", "]", j);
    }
    assert (inner + "]")[|inner|..|inner| + 1] == "]";
    FirstAt(inner + "]", "]", |inner|);
  }

  lemma TermsParse(f: string, vs: seq<string>)
    requires Printable(Terms(f, vs), false)
    ensures ParsePart(f + ":=" + "[" + Join(vs, ",") + "]") == (false, Terms(f, vs))
  {
    var inner := Join(vs, ",");
    var s := f + ":=[" + (inner + "]");
    assert s == f + ":=" + "[" + inner + "]";
    assert s == f + ":" + (['='] + (['['] + (inner + "]")));
    ItemsAbsent(vs, "!=");
    AbsentFront('[', inner + "]", "!=");
    AbsentFront('=', ['['] + (inner + "]"), "!=");
    AbsentFromClause(f, ['='] + (['['] + (inner + "]")), "!=");
    ItemsAbsent(vs, ":=[");
    SplitAtOperator(f, ":=[", inner + "]");
    OperatorAt(f, ":=[", inner + "]");
    CharInJoin(vs, ',', ']');
    CloseBracket(inner);
    ItemsSplit(vs);
  }

  // ---------- whole queries ----------

  lemma PrintedParses(clause: Clause, negative: bool)
    requires Printable(clause, negative)
    ensures PrintClause(clause, negative).Some?
    ensures ParsePart(PrintClause(clause, negative).value) == (negative, clause)
  {
    match clause
    case Term(f, v) => if negative { NegativeTermParses(f, v); } else { PositiveTermParses(f, v); }
    case Terms(f, vs) => TermsParse(f, vs);
  }

  lemma TermIsPart(f: string, v: string, negative: bool)
    requires Absent(f, AND) && Absent(v, AND) && !EndsOpen(v)
    ensures var s := f + (if negative then ":!=" else ":=") + v;
            Absent(s, AND) && !EndsOpen(s)
  {
    hide Absent, EndsOpen;
    AbsentFront('=', v, AND);
    if negative {
      AbsentFront('!', ['='] + v, AND);
      assert f + ":!=" + v == f + ":" + (['!'] + (['='] + v));
      AbsentFromClause(f, ['!'] + (['='] + v), AND);
    } else {
      assert f + ":=" + v == f + ":" + (['='] + v);
      AbsentFromClause(f, ['='] + v, AND);
    }
    TermEnd(f, if negative then ":!=" else ":=", v);
  }

  lemma ListIsPart(f: string, inner: string)
    requires Absent(f, AND) && Absent(inner + "]", AND)
    ensures var s := f + ":=" + "[" + inner + "]";
            Absent(s, AND) && !EndsOpen(s)
  {
    var s := f + ":=" + "[" + inner + "]";
    assert s[|s| - 1] == ']';
    assert !EndsOpen(s);
    hide Absent, EndsOpen;
    AbsentFront('[', inner + "]", AND);
    AbsentFront('=', ['['] + (inner + "]"), AND);
    AbsentFromClause(f, ['='] + (['['] + (inner + "]")), AND);
    assert s == f + ":" + (['='] + (['['] + (inner + "]")));
  }

  /** A printed clause holds no ` && `, does not end like the beginning of one, and is
      not empty. */
  lemma PrintedIsPart(clause: Clause, negative: bool)
    requires Printable(clause, negative)
    ensures var s := PrintClause(clause, negative).value;
            Absent(s, AND) && !EndsOpen(s) && s != ""
  {
    hide Absent, EndsOpen, Join;
    match clause
    case Term(f, v) => TermIsPart(f, v, negative);
    case Terms(f, vs) =>
      ItemsAbsent(vs, AND);
      ListIsPart(f, Join(vs, ","));
  }

  lemma TermEnd(f: string, op: string, v: string)
    requires (op == ":=" || op == ":!=") && !EndsOpen(v)
    ensures !EndsOpen(f + op + v)
  {
    var s := f + op + v;
    assert s[|s| - |v| - 1] == '=';
    if |v| >= 3 {
      assert s[|s| - 3..] == v[|v| - 3..];
    } else if |s| >= 3 {
      assert s[|s| - 3..][2 - |v|] == '=';
    }
  }

  /** Only a part that ends openly lets a separator start before its end. */
  lemma CrossingIsOpen(s: string, j: nat)
    requires j < |s| < j + 4 && At(s + AND, AND, j)
    ensures EndsOpen(s)
  {
    var t := s + AND;
    if j + 3 == |s| {
      assert s[j..] == t[j..j + 4][..3];
    } else {
      AtChar(t, AND, j, 1);
      AtChar(t, AND, j, 2);
    }
  }

  lemma PartEndsAtSeparator(s: string)
    requires Absent(s, AND) && !EndsOpen(s)
    ensures EndsAtSeparator(s, AND)
  {
    var t := s + AND;
    assert t[|s|..|s| + 4] == AND;
    forall j | 0 <= j < |s| ensures !At(t, AND, j) {
      if j + 4 <= |s| {
        AtPrefix(s, AND, AND, j);
      } else if At(t, AND, j) {
        CrossingIsOpen(s, j);
      }
    }
    FirstAt(t, AND, |s|);
  }

  lemma {:induction false} PrintedLength(clauses: seq<Clause>, negative: bool)
    requires forall i :: 0 <= i < |clauses| ==> Printable(clauses[i], negative)
    ensures var printed := PrintClauses(clauses, negative);
            && |printed| == |clauses|
            && forall i :: 0 <= i < |clauses| ==> Some(printed[i]) == PrintClause(clauses[i], negative)
  {
    hide ParsePart, PrintClause, Printable;
    if clauses == [] {
    } else {
      PrintedLength(clauses[..|clauses| - 1], negative);
      PrintedParses(clauses[|clauses| - 1], negative);
    }
  }

  lemma ParseAppend(parts: seq<string>, part: string)
    ensures var before := ParseParts(parts);
            var (negative, clause) := ParsePart(part);
            ParseParts(parts + [part]) == if negative then before.(mustNot := before.mustNot + [clause])
                                          else before.(filter := before.filter + [clause])
  {
    assert (parts + [part])[..|parts + [part]| - 1] == parts;
  }

  lemma PrintAppend(clauses: seq<Clause>, clause: Clause, negative: bool)
    requires PrintClause(clause, negative).Some?
    ensures PrintClauses(clauses + [clause], negative)
         == PrintClauses(clauses, negative) + [PrintClause(clause, negative).value]
  {
    assert (clauses + [clause])[..|clauses + [clause]| - 1] == clauses;
  }

  lemma {:induction false} ParsePrinted(q: BoolQuery)
    requires PrintableQuery(q)
    ensures ParseParts(PrintClauses(q.filter, false) + PrintClauses(q.mustNot, true)) == q
    decreases |q.filter| + |q.mustNot|
  {
    hide ParsePart, PrintClause, Printable;
    var positive, negative := PrintClauses(q.filter, false), PrintClauses(q.mustNot, true);
    if q.mustNot == [] && q.filter == [] {
    } else if q.mustNot != [] {
      hide ParseParts, PrintClauses;
      var front, last := q.mustNot[..|q.mustNot| - 1], q.mustNot[|q.mustNot| - 1];
      assert q.mustNot == front + [last];
      ParsePrinted(q.(mustNot := front));
      PrintedParses(last, true);
      PrintAppend(front, last, true);
      var before, text := PrintClauses(front, true), PrintClause(last, true).value;
      assert positive + negative == positive + before + [text];
      ParseAppend(positive + before, text);
    } else {
      assert positive + negative == positive;
      hide ParseParts, PrintClauses;
      var front, last := q.filter[..|q.filter| - 1], q.filter[|q.filter| - 1];
      assert q.filter == front + [last];
      ParsePrinted(q.(filter := front));
      PrintedParses(last, false);
      PrintAppend(front, last, false);
      assert PrintClauses(front, false) + negative == PrintClauses(front, false) by { NoneToPrint(q.mustNot); }
      ParseAppend(PrintClauses(front, false), PrintClause(last, false).value);
    }
  }

  lemma NoneToPrint(clauses: seq<Clause>)
    requires clauses == []
    ensures PrintClauses(clauses, true) == []
  {
  }

  lemma PrintedSeparable(q: BoolQuery)
    requires PrintableQuery(q) && |q.filter| + |q.mustNot| > 0
    ensures var parts := PrintClauses(q.filter, false) + PrintClauses(q.mustNot, true);
            Separable(parts, AND) && Join(parts, AND) != ""
  {
    var parts := PrintClauses(q.filter, false) + PrintClauses(q.mustNot, true);
    PrintedLength(q.filter, false);
    PrintedLength(q.mustNot, true);
    forall i | 0 <= i < |parts| ensures EndsAtSeparator(parts[i], AND) && Absent(parts[i], AND) && parts[i] != "" {
      if i < |q.filter| {
        PrintedIsPart(q.filter[i], false);
      } else {
        PrintedIsPart(q.mustNot[i - |q.filter|], true);
      }
      PartEndsAtSeparator(parts[i]);
    }
    assert |Join(parts, AND)| >= |parts[0]|;
  }

  /** Round trip of filters: the same clauses come back, in the same order. */
  lemma FilterRoundTrip(q: BoolQuery)
    requires PrintableQuery(q)
    ensures ParseFilter(PrintFilter(q)) == q
  {
    var parts := PrintClauses(q.filter, false) + PrintClauses(q.mustNot, true);
    ParsePrinted(q);
    if |q.filter| + |q.mustNot| > 0 {
      PrintedSeparable(q);
      SplitJoinIff(parts, AND);
    } else {
      assert q == BoolQuery([], []);
    }
  }

  /** Round trip of whole queries: the bool query comes back, paging with its defaults
      filled in. */
  lemma QueryRoundTrip(sq: SearchQuery)
    requires sq.filterBy.None? && sq.query.Some? && PrintableQuery(sq.query.value)
    ensures ToTypesense(sq).Some?
    ensures ToElastic(ToTypesense(sq).value)
         == SearchQuery(sq.query,
                        Some(if sq.from.Some? then sq.from.value else 0),
                        Some(if sq.size.Some? && sq.size.value != 0 then sq.size.value else 10), None, None, None)
  {
    FilterRoundTrip(sq.query.value);
  }

  /** A query in the right dialect stays as it is; one in neither has no Typesense form.
      Paging in either direction: what is given is kept, except that a size of zero counts
      as not given; the first page of ten is the default. */
  lemma PagingIsKept(sq: SearchQuery)
    ensures sq.filterBy.Some? ==> ToTypesense(sq) == Some(sq)
    ensures sq.filterBy.None? ==> (ToTypesense(sq).None? <==> sq.query.None?)
    ensures sq.query.Some? ==> ToElastic(sq) == sq
    ensures sq.filterBy.None? && sq.query.Some? ==>
              && ToTypesense(sq).Some?
              && ToTypesense(sq).value.start == Some(if sq.from.Some? then sq.from.value else 0)
              && ToTypesense(sq).value.numHits
                 == Some(if sq.size.Some? && sq.size.value != 0 then sq.size.value else 10)
    ensures sq.query.None? ==>
              && ToElastic(sq).from == Some(if sq.start.Some? then sq.start.value else 0)
              && ToElastic(sq).size == Some(if sq.numHits.Some? && sq.numHits.value != 0 then sq.numHits.value else 10)
  {
  }

  lemma OnePartParses(s: string)
    requires s != "" && !Contains(s, AND)
    ensures var (negative, clause) := ParsePart(s);
            ParseFilter(s) == if negative then BoolQuery([], [clause]) else BoolQuery([clause], [])
  {
    assert Split(s, AND) == [s] && [s] == [] + [s];
    hide ParsePart, IndexOf;
    ParseAppend([], s);
  }
}
