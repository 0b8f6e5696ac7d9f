/** What the two query dialects accept, and that translation does not change it.

    The meaning of a filter string is given on its own terms: parts joined by ` && `,
    each a field up to the first colon, an operator, and a value or a bracketed list.
    It does not go through the parser that is being checked. */
module QueryMeaning {
  import opened Options
  import opened Strings
  import opened Queries
  import opened QueryRoundTrip

  /** A document, as far as filters see it. */
  type Doc = map<string, string>

  // ---------- bool queries ----------

  predicate Matches(clause: Clause, doc: Doc) {
    match clause
    case Term(f, v) => f in doc && doc[f] == v
    case Terms(f, vs) => f in doc && doc[f] in vs
    case _ => false
  }

  predicate BoolAccepts(q: BoolQuery, doc: Doc) {
    && (forall i :: 0 <= i < |q.filter| ==> Matches(q.filter[i], doc))
    && (forall i :: 0 <= i < |q.mustNot| ==> !Matches(q.mustNot[i], doc))
  }

  // ---------- filter strings ----------

  predicate IsList(value: string) {
    |value| >= 2 && value[0] == '[' && value[|value| - 1] == ']'
  }

  /** Whether the field has the value, or one of the listed values. */
  predicate HasValue(doc: Doc, field: string, value: string) {
    field in doc &&
    if IsList(value) then doc[field] in Split(value[1..|value| - 1], ",") else doc[field] == value
  }

  predicate PartAccepts(part: string, doc: Doc) {
    var colon := IndexOf(part, ":");
    colon.Some? &&
    var field, rest := part[..colon.value], part[colon.value + 1..];
    if "!=" <= rest then !HasValue(doc, field, rest[2..])
    else "=" <= rest && HasValue(doc, field, rest[1..])
  }

  predicate FilterAccepts(filterBy: string, doc: Doc) {
    filterBy == "" || PartsAccept(Split(filterBy, AND), doc)
  }

  predicate PartsAccept(parts: seq<string>, doc: Doc) {
    forall i :: 0 <= i < |parts| ==> PartAccepts(parts[i], doc)
  }

  // ---------- from bool query to filter string ----------

  /** A field without a colon, and values that read back as they are. */
  predicate Tellable(clause: Clause) {
    match clause
    case Term(f, v) => ':' !in f && !Contains(f, AND) && !Contains(v, AND) && !EndsOpen(v) && !StartsList(v)
    case Terms(f, vs) =>
      ':' !in f && !Contains(f, AND) && vs != []
      && forall i :: 0 <= i < |vs| ==> !Contains(vs[i], AND) && ',' !in vs[i]
    case _ => false
  }

  predicate TellableQuery(q: BoolQuery) {
    && (forall i :: 0 <= i < |q.filter| ==> Tellable(q.filter[i]))
    && (forall i :: 0 <= i < |q.mustNot| ==> Tellable(q.mustNot[i]))
  }

  lemma FirstColon(f: string, rest: string)
    requires ':' !in f
    ensures IndexOf(f + ":" + rest, ":") == Some(|f|)
    ensures (f + ":" + rest)[..|f|] == f && (f + ":" + rest)[|f| + 1..] == rest
  {
    var s := f + ":" + rest;
    CharAbsent(f, ':');
    forall j | 0 <= j < |f| ensures !At(s, ":", j) {
      AtPrefix(f, ":" + rest, ":", j);
      assert f + (":" + rest) == s;
    }
    assert s[|f|..|f| + 1] == ":";
    FirstAt(s, ":", |f|);
  }

  /** The meaning of a part that is put together from field, sign and value. */
  lemma PartMeans(field: string, negative: bool, value: string, doc: Doc)
    requires ':' !in field
    ensures PartAccepts(field + ":" + ((if negative then "!=" else "=") + value), doc)
         == (HasValue(doc, field, value) != negative)
  {
    if negative {
      FirstColon(field, "!=" + value);
      assert ("!=" + value)[2..] == value;
    } else {
      var rest := "=" + value;
      FirstColon(field, rest);
      assert rest[1..] == value && rest[0] != "!="[0];
    }
  }

  /** One clause: its text accepts what the clause matches, or for a negative clause
      what it does not match. */
  lemma PrintedMeans(clause: Clause, negative: bool, doc: Doc)
    requires Tellable(clause)
    ensures PrintClause(clause, negative).Some?
    ensures PartAccepts(PrintClause(clause, negative).value, doc) == (Matches(clause, doc) != negative)
  {
    hide PartAccepts, Split, Join, IndexOf, Contains;
    var sign := if negative then "!=" else "=";
    match clause
    case Term(f, v) =>
      assert PrintClause(clause, negative).value == f + ":" + (sign + v);
      PartMeans(f, negative, v, doc);
    case Terms(f, vs) =>
      var list := "[" + Join(vs, ",") + "]";
      assert PrintClause(clause, negative).value == f + ":" + (sign + list);
      PartMeans(f, negative, list, doc);
      assert list[1..|list| - 1] == Join(vs, ",");
      ItemsSplit(vs);
  }

  lemma TellablePart(clause: Clause, negative: bool)
    requires Tellable(clause)
    ensures var s := PrintClause(clause, negative).value;
            EndsAtSeparator(s, AND) && Absent(s, AND) && s != ""
  {
    var s := PrintClause(clause, negative).value;
    var op := if negative then ":!=" else ":=";
    match clause
    case Term(f, v) =>
      OperatorKeepsApart(f, op, v);
      TermEnd(f, op, v);
      PartEndsAtSeparator(s);
    case Terms(f, vs) =>
      AbsentInJoin(vs, ',', AND);
      AbsentAcross(Join(vs, ","), ']', "", AND);
      AbsentFront('[', Join(vs, ",") + [']'] + "", AND);
      var list := "[" + Join(vs, ",") + "]";
      assert list == ['['] + (Join(vs, ",") + [']'] + "");
      OperatorKeepsApart(f, op, list);
      assert s == f + op + list;
      assert s[|s| - 1] == ']';
      PartEndsAtSeparator(s);
  }

  lemma OperatorKeepsApart(f: string, op: string, v: string)
    requires (op == ":=" || op == ":!=") && Absent(f, AND) && Absent(v, AND)
    ensures Absent(f + op + v, AND)
  {
    AbsentFront('=', v, AND);
    if op == ":!=" {
      AbsentFront('!', ['='] + v, AND);
      AbsentFromClause(f, ['!'] + (['='] + v), AND);
      assert f + op + v == f + ":" + (['!'] + (['='] + v));
    } else {
      AbsentFromClause(f, ['='] + v, AND);
      assert f + op + v == f + ":" + (['='] + v);
    }
  }

  lemma {:induction false} PrintedClausesMean(clauses: seq<Clause>, negative: bool, doc: Doc)
    requires forall i :: 0 <= i < |clauses| ==> Tellable(clauses[i])
    ensures var printed := PrintClauses(clauses, negative);
            && |printed| == |clauses|
            && (forall i :: 0 <= i < |clauses| ==>
                  && PartAccepts(printed[i], doc) == (Matches(clauses[i], doc) != negative)
                  && EndsAtSeparator(printed[i], AND) && Absent(printed[i], AND) && printed[i] != "")
  {
    hide PrintClause, PartAccepts, Tellable, Matches, EndsAtSeparator;
    if clauses == [] {
    } else {
      var front, last := clauses[..|clauses| - 1], clauses[|clauses| - 1];
      assert clauses == front + [last];
      PrintedClausesMean(front, negative, doc);
      PrintedMeans(last, negative, doc);
      TellablePart(last, negative);
      PrintAppend(front, last, negative);
    }
  }

  /** Translation to a filter string preserves meaning, for term and terms, positive and
      negative, and every document. */
  lemma ToFilterPreservesMeaning(q: BoolQuery, doc: Doc)
    requires TellableQuery(q)
    ensures FilterAccepts(PrintFilter(q), doc) <==> BoolAccepts(q, doc)
  {
    hide PrintClause, PartAccepts, Tellable, Matches, EndsAtSeparator;
    var positive, negative := PrintClauses(q.filter, false), PrintClauses(q.mustNot, true);
    var parts := positive + negative;
    PrintedClausesMean(q.filter, false, doc);
    PrintedClausesMean(q.mustNot, true, doc);
    if parts != [] {
      SplitJoinIff(parts, AND);
      assert |Join(parts, AND)| >= |parts[0]|;
      PartsMean(q, positive, negative, doc);
    }
  }

  lemma PartsMean(q: BoolQuery, positive: seq<string>, negative: seq<string>, doc: Doc)
    requires |positive| == |q.filter| && |negative| == |q.mustNot|
    requires forall i :: 0 <= i < |positive| ==> PartAccepts(positive[i], doc) == Matches(q.filter[i], doc)
    requires forall i :: 0 <= i < |negative| ==> PartAccepts(negative[i], doc) == !Matches(q.mustNot[i], doc)
    ensures PartsAccept(positive + negative, doc) <==> BoolAccepts(q, doc)
  {
    hide PartAccepts, Matches;
    var parts := positive + negative;
    forall i | 0 <= i < |parts|
      ensures PartAccepts(parts[i], doc)
           == if i < |positive| then Matches(q.filter[i], doc) else !Matches(q.mustNot[i - |positive|], doc)
    {
    }
    if PartsAccept(parts, doc) {
      forall i | 0 <= i < |q.filter| ensures Matches(q.filter[i], doc) {
        assert PartAccepts(parts[i], doc);
      }
      forall i | 0 <= i < |q.mustNot| ensures !Matches(q.mustNot[i], doc) {
        assert PartAccepts(parts[i + |positive|], doc);
      }
    }
  }

  // ---------- from filter string to bool query ----------

  /** What follows the field of a part that the parser reads as it is meant: one
      operator, no negative list, and in a list no bracket but the enclosing ones. */
  predicate ReadableRest(rest: string) {
    if "!=" <= rest then
      !Contains(rest[2..], ":!=") && !IsList(rest[2..])
    else
      && "=" <= rest && !Contains(rest, "!=")
      && if IsList(rest[1..]) then
           !Contains(rest[2..], ":=[") && ']' !in rest[2..|rest| - 1]
         else
           !StartsList(rest[1..]) && !Contains(rest[1..], ":=[") && !Contains(rest[1..], ":=")
  }

  predicate Readable(part: string) {
    var colon := IndexOf(part, ":");
    colon.Some? && !Contains(part[..colon.value], "!=") && ReadableRest(part[colon.value + 1..])
  }

  /** The parser's clause for a readable part, and whether it is negative. */
  lemma ReadableParses(field: string, rest: string)
    requires ':' !in field && !Contains(field, "!=") && ReadableRest(rest)
    ensures ParsePart(field + ":" + rest)
         == if "!=" <= rest then (true, Term(field, rest[2..]))
            else if IsList(rest[1..]) then (false, Terms(field, Split(rest[2..|rest| - 1], ",")))
            else (false, Term(field, rest[1..]))
  {
    hide ParsePart, Contains;
    if "!=" <= rest {
      NegativeParses(field, rest[2..]);
      assert field + ":" + rest == field + ":!=" + rest[2..];
    } else {
      NoInequality(field, rest);
      if IsList(rest[1..]) {
        assert rest[2..] == rest[2..|rest| - 1] + "]";
        assert field + ":" + rest == field + ":=[" + (rest[2..|rest| - 1] + "]");
        ListParses(field, rest[2..|rest| - 1]);
      } else {
        assert field + ":" + rest == field + ":=" + rest[1..];
        PositiveParses(field, rest[1..]);
      }
    }
  }

  lemma NoInequality(field: string, rest: string)
    requires !Contains(field, "!=") && !Contains(rest, "!=")
    ensures !Contains(field + ":" + rest, "!=")
  {
    AbsentFromClause(field, rest, "!=");
  }

  /** An operator is found right after a field without a colon. */
  lemma OperatorAfterField(field: string, op: string, v: string)
    requires ':' !in field && op != "" && op[0] == ':' && !Contains(v, op)
    ensures IndexOf(field + op + v, op) == Some(|field|)
    ensures Split(field + op + v, op) == [field, v]
  {
    var s := field + op + v;
    assert s[|field|..|field| + |op|] == op;
    forall j | 0 <= j < |field| ensures !At(s, op, j) {
      if At(s, op, j) {
        AtChar(s, op, j, 0);
      }
    }
    FirstAt(s, op, |field|);
    assert s[..|field|] == field && s[|field| + |op|..] == v;
  }

  lemma NegativeParses(field: string, v: string)
    requires ':' !in field && !Contains(v, ":!=")
    ensures ParsePart(field + ":!=" + v) == (true, Term(field, v))
  {
    var s := field + ":!=" + v;
    assert s[|field| + 1..|field| + 3] == "!=";
    assert At(s, "!=", |field| + 1);
    OperatorAfterField(field, ":!=", v);
  }

  lemma ListParses(field: string, inner: string)
    requires ':' !in field && ']' !in inner && !Contains(inner + "]", ":=[")
    requires !Contains(field + ":=[" + (inner + "]"), "!=")
    ensures ParsePart(field + ":=[" + (inner + "]")) == (false, Terms(field, Split(inner, ",")))
  {
    OperatorAfterField(field, ":=[", inner + "]");
    CloseBracket(inner);
  }

  lemma PositiveParses(field: string, v: string)
    requires ':' !in field && !StartsList(v) && !Contains(v, ":=") && !Contains(v, ":=[")
    requires !Contains(field + ":=" + v, "!=")
    ensures ParsePart(field + ":=" + v) == (false, Term(field, v))
  {
    var s := field + ":=" + v;
    OperatorAfterField(field, ":=", v);
    forall j ensures !At(s, ":=[", j) {
      if At(s, ":=[", j) {
        ListInPositive(field, v, j);
      }
    }
  }

  lemma ListInPositive(field: string, v: string, j: int)
    requires ':' !in field && At(field + ":=" + v, ":=[", j)
    ensures StartsList(v) || Contains(v, ":=[")
  {
    var s := field + ":=" + v;
    AtChar(s, ":=[", j, 0);
    AtChar(s, ":=[", j, 1);
    AtChar(s, ":=[", j, 2);
    if j >= |field| + 2 {
      AtSuffix(field + ":=", v, ":=[", j);
    } else {
      assert j == |field|;
    }
  }

  lemma BeforeColon(part: string)
    requires IndexOf(part, ":").Some?
    ensures var colon := IndexOf(part, ":").value;
            && ':' !in part[..colon] && part == part[..colon] + ":" + part[colon + 1..]
  {
    var colon := IndexOf(part, ":").value;
    forall j | 0 <= j < colon ensures part[j] != ':' {
      assert !At(part, ":", j);
      assert part[j..j + 1] == [part[j]];
    }
  }

  lemma ReadableHasOperator(rest: string)
    requires ReadableRest(rest)
    ensures "!=" <= rest || "=" <= rest
    ensures "!=" <= rest ==> !IsList(rest[2..])
  {
  }

  /** One part: the parser's clause matches what the part accepts. */
  lemma ParsedMeans(part: string, doc: Doc)
    requires Readable(part)
    ensures var (negative, clause) := ParsePart(part);
            PartAccepts(part, doc) == (Matches(clause, doc) != negative)
  {
    hide ParsePart, IndexOf, PartAccepts, Contains, ReadableRest, Split;
    var colon := IndexOf(part, ":").value;
    var field, rest := part[..colon], part[colon + 1..];
    BeforeColon(part);
    ReadableHasOperator(rest);
    ReadableParses(field, rest);
    RestMeans(field, rest, doc);
    if !("!=" <= rest) && IsList(rest[1..]) {
      assert rest[1..][1..|rest[1..]| - 1] == rest[2..|rest| - 1];
    }
  }

  lemma RestMeans(field: string, rest: string, doc: Doc)
    requires ':' !in field && ("!=" <= rest || "=" <= rest)
    ensures PartAccepts(field + ":" + rest, doc)
         == if "!=" <= rest then !HasValue(doc, field, rest[2..]) else HasValue(doc, field, rest[1..])
  {
    hide PartAccepts, HasValue;
    if "!=" <= rest {
      assert rest == "!=" + rest[2..];
      PartMeans(field, true, rest[2..], doc);
    } else {
      assert rest == "=" + rest[1..];
      PartMeans(field, false, rest[1..], doc);
    }
  }

  lemma {:induction false} ParsedPartsMean(parts: seq<string>, doc: Doc)
    requires forall i :: 0 <= i < |parts| ==> Readable(parts[i])
    ensures PartsAccept(parts, doc) <==> BoolAccepts(ParseParts(parts), doc)
  {
    hide PartAccepts, Readable, ParsePart, Matches;
    if parts == [] {
    } else {
      var front, last := parts[..|parts| - 1], parts[|parts| - 1];
      assert parts == front + [last];
      ParsedPartsMean(front, doc);
      ParsedMeans(last, doc);
      ParseAppend(front, last);
      var (negative, clause) := ParsePart(last);
      AcceptsAppend(ParseParts(front), negative, clause, doc);
      assert PartsAccept(parts, doc) <==> PartsAccept(front, doc) && PartAccepts(last, doc) by {
        forall i | 0 <= i < |parts| ensures parts[i] == if i < |front| then front[i] else last {}
      }
    }
  }

  lemma AcceptsAppend(q: BoolQuery, negative: bool, clause: Clause, doc: Doc)
    ensures BoolAccepts(if negative then q.(mustNot := q.mustNot + [clause])
                        else q.(filter := q.filter + [clause]), doc)
       <==> BoolAccepts(q, doc) && (Matches(clause, doc) != negative)
  {
    hide Matches;
    var filter, mustNot := q.filter + [clause], q.mustNot + [clause];
    assert filter[|q.filter|] == clause && mustNot[|q.mustNot|] == clause;
    assert forall i :: 0 <= i < |q.filter| ==> filter[i] == q.filter[i];
    assert forall i :: 0 <= i < |q.mustNot| ==> mustNot[i] == q.mustNot[i];
  }

  /** Translation to a bool query preserves meaning, for every filter string of readable
      parts and every document. */
  lemma ToBoolPreservesMeaning(filterBy: string, doc: Doc)
    requires filterBy == "" || forall part :: part in Split(filterBy, AND) ==> Readable(part)
    ensures BoolAccepts(ParseFilter(filterBy), doc) <==> FilterAccepts(filterBy, doc)
  {
    if filterBy != "" {
      ParsedPartsMean(Split(filterBy, AND), doc);
    }
  }

  /** A negative part: the parser compares with the text where the part means a list, so
      the two differ exactly on the documents whose field has one and not the other. */
  lemma NegativePartMeansIff(field: string, value: string, doc: Doc)
    requires ':' !in field && !Contains(value, ":!=")
    ensures var part := field + ":!=" + value;
            var (negative, clause) := ParsePart(part);
            PartAccepts(part, doc) == (Matches(clause, doc) != negative) <==>
              (field in doc && IsList(value) ==>
                 (doc[field] in Split(value[1..|value| - 1], ",") <==> doc[field] == value))
  {
    NegativeParses(field, value);
    PartMeans(field, true, value, doc);
    assert field + ":!=" + value == field + ":" + ("!=" + value);
    hide PartAccepts, ParsePart, Split;
  }

  /** A negative filter keeps its meaning for every document exactly when its value is no
      list: a document with the first listed item tells the two apart. */
  lemma NegativeKeepsMeaningIff(field: string, value: string)
    requires ':' !in field && !Contains(value, ":!=") && !Contains(field + ":!=" + value, AND)
    ensures var s := field + ":!=" + value;
            (forall doc: Doc :: BoolAccepts(ParseFilter(s), doc) <==> FilterAccepts(s, doc)) <==> !IsList(value)
  {
    var s := field + ":!=" + value;
    var (negative, clause) := ParsePart(s);
    forall doc: Doc
      ensures BoolAccepts(ParseFilter(s), doc) <==> Matches(clause, doc) != negative
      ensures FilterAccepts(s, doc) <==> PartAccepts(s, doc)
    {
      OnePartMeans(s, doc);
    }
    forall doc: Doc ensures PartAccepts(s, doc) == (Matches(clause, doc) != negative) <==>
        (field in doc && IsList(value) ==>
           (doc[field] in Split(value[1..|value| - 1], ",") <==> doc[field] == value))
    {
      NegativePartMeansIff(field, value, doc);
    }
    hide BoolAccepts, FilterAccepts, PartAccepts, ParsePart, ParseFilter, Matches;
    if IsList(value) {
      var inner := value[1..|value| - 1];
      var doc: Doc := map[field := Split(inner, ",")[0]];
      assert doc[field] in Split(inner, ",") && |doc[field]| <= |inner|;
      assert !(BoolAccepts(ParseFilter(s), doc) <==> FilterAccepts(s, doc));
    }
  }

  /** A filter string of one part means what the part means, on either side. */
  lemma OnePartMeans(s: string, doc: Doc)
    requires s != "" && !Contains(s, AND)
    ensures var (negative, clause) := ParsePart(s);
            BoolAccepts(ParseFilter(s), doc) <==> Matches(clause, doc) != negative
    ensures FilterAccepts(s, doc) <==> PartAccepts(s, doc)
  {
    hide ParsePart, PartAccepts, Matches, ParseFilter;
    OnePartParses(s);
    assert Split(s, AND) == [s] && [s][0] == s;
    var (negative, clause) := ParsePart(s);
    assert [clause][0] == clause;
  }

  /** The shortest case: a document whose field is on the list gets through. */
  lemma NegativeListIsMisread(doc: Doc)
    requires doc == map["a" := "x"]
    ensures !FilterAccepts("a:!=[x]", doc)
    ensures BoolAccepts(ParseFilter("a:!=[x]"), doc)
  {
    var s := "a:!=[x]";
    ListedIsExcluded(s, doc);
    ListReadAsValue(s);
    NotTheText(doc);
    hide ParseFilter, FilterAccepts, BoolAccepts;
  }

  lemma NotTheText(doc: Doc)
    requires doc == map["a" := "x"]
    ensures BoolAccepts(BoolQuery([], [Term("a", "[x]")]), doc)
  {
    assert |"[x]"| == 3;
  }

  lemma ListedIsExcluded(s: string, doc: Doc)
    requires s == "a:!=[x]" && doc == map["a" := "x"]
    ensures !FilterAccepts(s, doc)
  {
    assert s == "a" + ":" + ("!=" + "[x]");
    NoAndIn(s);
    PartMeans("a", true, "[x]", doc);
    hide PartAccepts;
    assert !PartAccepts(s, doc) by {
      assert "[x]"[1..2] == "x";
      CharAbsent("x", ',');
      assert Split("x", ",") == ["x"] && "x" in Split("x", ",");
    }
    hide FilterAccepts, BoolAccepts, ParsePart, ParseFilter;
    OnePartMeans(s, doc);
  }

  lemma ListReadAsValue(s: string)
    requires s == "a:!=[x]"
    ensures ParseFilter(s) == BoolQuery([], [Term("a", "[x]")])
  {
    assert s == "a" + ":!=" + "[x]";
    NoAndIn(s);
    CharAbsent("[x]", ':');
    AbsentLonger("[x]", ":", ":!=");
    NegativeParses("a", "[x]");
    OnePartParses(s);
  }

  lemma NoAndIn(s: string)
    requires ' ' !in s
    ensures !Contains(s, AND)
  {
    CharAbsent(s, ' ');
    AbsentLonger(s, " ", AND);
  }
}
