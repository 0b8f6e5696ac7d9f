/** The string operations of the host language that the program uses. */
module Strings {
  import opened Options

  function ToLower(s: string): string {
    seq(|s|, i requires 0 <= i < |s| => if 'A' <= s[i] <= 'Z' then s[i] - 'A' + 'a' else s[i])
  }

  /** The same letter, whatever its case. */
  predicate SameLetter(a: char, b: char) {
    || a == b
    || ('A' <= a <= 'Z' && b as int == a as int + 32)
    || ('A' <= b <= 'Z' && a as int == b as int + 32)
  }

  /** Lower-casing makes two strings equal exactly if they differ in case alone. */
  lemma ToLowerIff(a: string, b: string)
    ensures ToLower(a) == ToLower(b) <==> |a| == |b| && forall i :: 0 <= i < |a| ==> SameLetter(a[i], b[i])
  {
    if |a| == |b| {
      forall i | 0 <= i < |a| ensures ToLower(a)[i] == ToLower(b)[i] <==> SameLetter(a[i], b[i]) {}
    }
    assert |ToLower(a)| == |a| && |ToLower(b)| == |b|;
  }

  predicate At(s: string, pattern: string, i: int) {
    0 <= i <= |s| - |pattern| && s[i..i + |pattern|] == pattern
  }

  ghost predicate Absent(s: string, pattern: string) {
    forall i :: !At(s, pattern, i)
  }

  /** The first place where a pattern occurs. */
  function IndexOf(s: string, pattern: string): (r: Option<nat>)
    ensures r.Some? ==> At(s, pattern, r.value) && forall j :: 0 <= j < r.value ==> !At(s, pattern, j)
    ensures r.None? <==> Absent(s, pattern)
  {
    if |s| < |pattern| then None
    else if s[..|pattern|] == pattern then assert At(s, pattern, 0); Some(0)
    else
      AtTail(s, pattern);
      var rest := IndexOf(s[1..], pattern);
      if rest.None? then None else Some(rest.value + 1)
  }

  lemma AtTail(s: string, pattern: string)
    requires s != ""
    ensures forall i :: i >= 1 ==> At(s, pattern, i) == At(s[1..], pattern, i - 1)
    ensures forall i :: At(s[1..], pattern, i) ==> At(s, pattern, i + 1)
  {
    forall i | i >= 1 ensures At(s, pattern, i) == At(s[1..], pattern, i - 1) {
      if i <= |s| - |pattern| {
        assert s[1..][i - 1..i - 1 + |pattern|] == s[i..i + |pattern|];
      }
    }
    forall i | At(s[1..], pattern, i) ensures At(s, pattern, i + 1) {
      assert s[1..][i..i + |pattern|] == s[i + 1..i + 1 + |pattern|];
    }
  }

  predicate Contains(s: string, pattern: string) {
    IndexOf(s, pattern).Some?
  }

  function Split(s: string, sep: string): (parts: seq<string>)
    requires sep != ""
    ensures parts != [] && (Contains(s, sep) ==> |parts| > 1)
    decreases |s|
  {
    var i := IndexOf(s, sep);
    if i.None? then [s] else [s[..i.value]] + Split(s[i.value + |sep|..], sep)
  }

  function Join(parts: seq<string>, sep: string): string {
    if parts == [] then ""
    else if |parts| == 1 then parts[0]
    else parts[0] + sep + Join(parts[1..], sep)
  }

  /** `replace` with a string pattern: the first occurrence only. */
  function ReplaceFirst(s: string, pattern: string, with: string): string {
    var i := IndexOf(s, pattern);
    if i.None? then s else s[..i.value] + with + s[i.value + |pattern|..]
  }

  // ---------- where patterns can occur ----------

  lemma FirstAt(s: string, pattern: string, i: nat)
    requires At(s, pattern, i) && forall j :: 0 <= j < i ==> !At(s, pattern, j)
    ensures IndexOf(s, pattern) == Some(i)
  {
    var r := IndexOf(s, pattern);
    assert r.Some?;
    assert !(i < r.value) && !(r.value < i);
  }

  /** An occurrence that starts within `a` and ends within `a + b`. */
  lemma AtPrefix(a: string, b: string, pattern: string, i: int)
    requires i + |pattern| <= |a|
    ensures At(a + b, pattern, i) == At(a, pattern, i)
  {
    if 0 <= i {
      assert (a + b)[i..i + |pattern|] == a[i..i + |pattern|];
    }
  }

  lemma AtSuffix(a: string, b: string, pattern: string, i: int)
    requires i >= |a|
    ensures At(a + b, pattern, i) == At(b, pattern, i - |a|)
  {
    if i <= |a + b| - |pattern| {
      assert (a + b)[i..i + |pattern|] == b[i - |a|..i - |a| + |pattern|];
    }
  }

  lemma AtChar(s: string, pattern: string, i: int, k: int)
    requires At(s, pattern, i) && 0 <= k < |pattern|
    ensures s[i + k] == pattern[k]
  {
    assert s[i..i + |pattern|][k] == pattern[k];
  }

  /** A character that the pattern does not have keeps two strings apart. */
  lemma AbsentAcross(a: string, c: char, b: string, pattern: string)
    requires c !in pattern && pattern != "" && Absent(a, pattern) && Absent(b, pattern)
    ensures Absent(a + [c] + b, pattern)
  {
    var s := a + [c] + b;
    assert a + ([c] + b) == s && s[|a|] == c;
    forall i ensures !At(s, pattern, i) {
      if i + |pattern| <= |a| {
        AtPrefix(a, [c] + b, pattern, i);
      } else if i > |a| {
        AtSuffix(a + [c], b, pattern, i);
      } else if At(s, pattern, i) {
        AtChar(s, pattern, i, |a| - i);
      }
    }
  }

  lemma AbsentFront(c: char, b: string, pattern: string)
    requires pattern != "" && c != pattern[0] && Absent(b, pattern)
    ensures Absent([c] + b, pattern)
  {
    forall i ensures !At([c] + b, pattern, i) {
      if At([c] + b, pattern, i) {
        if i == 0 {
          AtChar([c] + b, pattern, 0, 0);
        } else {
          AtSuffix([c], b, pattern, i);
        }
      }
    }
  }

  lemma {:induction false} AbsentInJoin(parts: seq<string>, sep: char, pattern: string)
    requires sep !in pattern && pattern != ""
    requires forall i :: 0 <= i < |parts| ==> Absent(parts[i], pattern)
    ensures Absent(Join(parts, [sep]), pattern)
  {
    if |parts| <= 1 {
    } else {
      AbsentInJoin(parts[1..], sep, pattern);
      AbsentAcross(parts[0], sep, Join(parts[1..], [sep]), pattern);
    }
  }

  lemma AtLonger(s: string, pattern: string, longer: string, i: int)
    requires pattern <= longer && At(s, longer, i)
    ensures At(s, pattern, i)
  {
    assert s[i..i + |pattern|] == s[i..i + |longer|][..|pattern|];
  }

  /** A longer pattern is absent where its beginning is. */
  lemma AbsentLonger(s: string, pattern: string, longer: string)
    requires Absent(s, pattern) && pattern <= longer
    ensures Absent(s, longer)
  {
    forall i ensures !At(s, longer, i) {
      if At(s, longer, i) {
        AtLonger(s, pattern, longer, i);
      }
    }
  }

  // ---------- split and join ----------

  /** Whether a part is cut off right where it ends when the separator follows. */
  predicate EndsAtSeparator(part: string, sep: string) {
    IndexOf(part + sep, sep) == Some(|part|)
  }

  predicate Separable(parts: seq<string>, sep: string) {
    && parts != []
    && (forall i :: 0 <= i < |parts| - 1 ==> EndsAtSeparator(parts[i], sep))
    && !Contains(parts[|parts| - 1], sep)
  }

  lemma FirstSeparator(part: string, sep: string, rest: string)
    requires sep != ""
    ensures EndsAtSeparator(part, sep) <==> IndexOf(part + sep + rest, sep) == Some(|part|)
  {
    var s, t := part + sep, part + sep + rest;
    forall j | j <= |part| ensures At(s, sep, j) == At(t, sep, j) {
      AtPrefix(s, rest, sep, j);
    }
    assert s[|part|..|part| + |sep|] == sep;
    if EndsAtSeparator(part, sep) {
      FirstAt(t, sep, |part|);
    }
    if IndexOf(t, sep) == Some(|part|) {
      FirstAt(s, sep, |part|);
    }
  }

  /** Joining what was split gives the string back. */
  lemma {:induction false} JoinSplit(s: string, sep: string)
    requires sep != ""
    ensures Join(Split(s, sep), sep) == s
    decreases |s|
  {
    var i := IndexOf(s, sep);
    if i.None? {
    } else {
      var front, rest := s[..i.value], s[i.value + |sep|..];
      JoinSplit(rest, sep);
      assert ([front] + Split(rest, sep))[1..] == Split(rest, sep);
      assert s == front + sep + rest;
    }
  }

  /** Splitting what was joined gives the parts back exactly when they are separable. */
  lemma {:induction false} SplitJoinIff(parts: seq<string>, sep: string)
    requires sep != "" && parts != []
    ensures Split(Join(parts, sep), sep) == parts <==> Separable(parts, sep)
    decreases |parts|
  {
    hide IndexOf;
    var s := Join(parts, sep);
    if |parts| == 1 {
    } else {
      var rest := Join(parts[1..], sep);
      SplitJoinIff(parts[1..], sep);
      FirstSeparator(parts[0], sep, rest);
      if EndsAtSeparator(parts[0], sep) {
        assert Split(s, sep) == [parts[0]] + Split(rest, sep) by {
          assert s[..|parts[0]|] == parts[0];
          assert s[|parts[0]| + |sep|..] == rest;
        }
        assert Split(s, sep)[1..] == Split(rest, sep);
        assert [parts[0]] + parts[1..] == parts;
        SeparableTail(parts, sep);
      } else {
        SplitHead(s, sep, parts);
      }
    }
  }

  lemma SeparableTail(parts: seq<string>, sep: string)
    requires |parts| > 1
    ensures Separable(parts, sep) <==> EndsAtSeparator(parts[0], sep) && Separable(parts[1..], sep)
  {
    hide EndsAtSeparator;
    var tail := parts[1..];
    if EndsAtSeparator(parts[0], sep) && Separable(tail, sep) {
      forall i | 0 <= i < |parts| - 1 ensures EndsAtSeparator(parts[i], sep) {
        if i > 0 { assert parts[i] == tail[i - 1]; }
      }
    }
  }

  /** Had the split given the parts back, the first would end at its separator. */
  lemma SplitHead(s: string, sep: string, parts: seq<string>)
    requires sep != "" && |parts| > 1 && s == Join(parts, sep)
    ensures Split(s, sep) == parts ==> EndsAtSeparator(parts[0], sep)
  {
    if Split(s, sep) == parts {
      var i := IndexOf(s, sep).value;
      assert Split(s, sep)[0] == s[..i];
      assert i == |parts[0]|;
      FirstSeparator(parts[0], sep, Join(parts[1..], sep));
    }
  }
}
