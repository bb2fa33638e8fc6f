// Values and string operations shared by the backend and the two front ends:
// JavaScript's `undefined`/`null`, JSON values, truthiness, and the few
// String.prototype methods the application relies on.
module Common {

  /** `undefined` (or `null` where `??` treats both alike) versus a present value. */
  datatype Option<T> = None | Some(value: T)
  {
    predicate IsSome() { Some? }

    /** JavaScript `x ?? dflt`. */
    function OrElse(dflt: T): (r: T)
      ensures Some? ==> r == value
      ensures None? ==> r == dflt
    {
      match this
      case Some(v) => v
      case None => dflt
    }
  }

  /** A JSON value as stored in a Prisma `Json` column or sent over HTTP.
      Numbers are integers; no stored or transmitted number here is fractional. */
  datatype Json =
    | JNull
    | JBool(b: bool)
    | JNum(n: int)
    | JStr(s: string)
    | JArr(items: seq<Json>)
    | JObj(fields: map<string, Json>)

  /** JavaScript truthiness of a string: only "" is falsy. */
  predicate TruthyString(s: string) { s != "" }

  /** Truthiness of an optional string (`undefined`, `null` and "" are falsy). */
  predicate Truthy(o: Option<string>) { o.Some? && o.value != "" }

  // ------------------------------------------------------------------
  // Prefixes, search and replacement
  // ------------------------------------------------------------------

  /** String.prototype.startsWith. */
  predicate StartsWith(s: string, prefix: string)
  {
    |prefix| <= |s| && s[..|prefix|] == prefix
  }

  predicate OccursAt(s: string, pat: string, i: nat)
  {
    i + |pat| <= |s| && s[i..i + |pat|] == pat
  }

  /** String.prototype.indexOf: the first position at which `pat` occurs, if any. */
  function IndexOfFrom(s: string, pat: string, from: nat): (r: Option<nat>)
    requires from <= |s|
    ensures r.Some? ==> from <= r.value && OccursAt(s, pat, r.value)
    ensures r.Some? ==> forall j :: from <= j < r.value ==> !OccursAt(s, pat, j)
    ensures r.None? <==> forall j :: from <= j <= |s| ==> !OccursAt(s, pat, j)
    decreases |s| - from
  {
    if OccursAt(s, pat, from) then Some(from)
    else if from == |s| then None
    else IndexOfFrom(s, pat, from + 1)
  }

  function IndexOf(s: string, pat: string): (r: Option<nat>)
    ensures r.Some? ==> OccursAt(s, pat, r.value)
    ensures r.Some? ==> forall j :: 0 <= j < r.value ==> !OccursAt(s, pat, j)
    ensures r.None? <==> forall j :: 0 <= j <= |s| ==> !OccursAt(s, pat, j)
  {
    IndexOfFrom(s, pat, 0)
  }

  /** String.prototype.replace with a string pattern: only the FIRST occurrence
      is replaced; without an occurrence the string is returned as it is. */
  function ReplaceFirst(s: string, pat: string, repl: string): (r: string)
    ensures IndexOf(s, pat).None? ==> r == s
    ensures IndexOf(s, pat).Some? ==>
      var i := IndexOf(s, pat).value;
      r == s[..i] + repl + s[i + |pat|..]
  {
    match IndexOf(s, pat)
    case None => s
    case Some(i) => s[..i] + repl + s[i + |pat|..]
  }

  /** Replacing a prefix that is present removes exactly that prefix. */
  lemma ReplaceFirstOfPrefix(s: string, pat: string)
    requires StartsWith(s, pat)
    ensures ReplaceFirst(s, pat, "") == s[|pat|..]
  {
    assert OccursAt(s, pat, 0);
  }

  /** `s.replace(/[..]/g, c)`: every character of the class is replaced by `c`. */
  function ReplaceEach(s: string, chars: set<char>, c: char): (r: string)
    ensures |r| == |s|
    ensures forall i :: 0 <= i < |s| ==> r[i] == (if s[i] in chars then c else s[i])
  {
    if s == [] then []
    else [if s[0] in chars then c else s[0]] + ReplaceEach(s[1..], chars, c)
  }

  // ------------------------------------------------------------------
  // Trimming
  // ------------------------------------------------------------------

  /** The characters String.prototype.trim removes: the ECMAScript WhiteSpace
      and LineTerminator code points. */
  predicate IsJsWhitespace(c: char)
  {
    c == '\t' || c == '\n' || c == '\U{000B}' || c == '\U{000C}' || c == '\r' || c == ' '
    || c == '\U{00A0}' || c == '\U{1680}' || ('\U{2000}' <= c <= '\U{200A}')
    || c == '\U{2028}' || c == '\U{2029}' || c == '\U{202F}' || c == '\U{205F}'
    || c == '\U{3000}' || c == '\U{FEFF}'
  }

  function TrimStart(s: string): (r: string)
    ensures |r| <= |s| && r == s[|s| - |r|..]
    ensures r == [] || !IsJsWhitespace(r[0])
  {
    if s != [] && IsJsWhitespace(s[0]) then TrimStart(s[1..]) else s
  }

  function TrimEnd(s: string): (r: string)
    ensures |r| <= |s| && r == s[..|r|]
    ensures r == [] || !IsJsWhitespace(r[|r| - 1])
  {
    if s != [] && IsJsWhitespace(s[|s| - 1]) then TrimEnd(s[..|s| - 1]) else s
  }

  /** String.prototype.trim: the longest infix that neither starts nor ends with
      white space, everything cut off being white space. */
  function Trim(s: string): (r: string)
    ensures exists i :: OccursAt(s, r, i)
    ensures r == [] || (!IsJsWhitespace(r[0]) && !IsJsWhitespace(r[|r| - 1]))
  {
    var e := TrimEnd(s);
    var r := TrimStart(e);
    assert r == s[..|e|][|e| - |r|..];
    assert OccursAt(s, r, |e| - |r|);
    r
  }

  /** Everything `TrimStart` cuts off is white space. */
  lemma {:induction false} TrimStartCutsWhitespace(s: string)
    ensures forall i :: 0 <= i < |s| - |TrimStart(s)| ==> IsJsWhitespace(s[i])
  {
    if s != [] && IsJsWhitespace(s[0]) {
      TrimStartCutsWhitespace(s[1..]);
      forall i | 1 <= i < |s| - |TrimStart(s)| ensures IsJsWhitespace(s[i]) {
        assert s[i] == s[1..][i - 1];
      }
    }
  }

  /** Everything `TrimEnd` cuts off is white space. */
  lemma {:induction false} TrimEndCutsWhitespace(s: string)
    ensures forall i :: |TrimEnd(s)| <= i < |s| ==> IsJsWhitespace(s[i])
  {
    if s != [] && IsJsWhitespace(s[|s| - 1]) {
      TrimEndCutsWhitespace(s[..|s| - 1]);
      forall i | |TrimEnd(s)| <= i < |s| - 1 ensures IsJsWhitespace(s[i]) {
        assert s[i] == s[..|s| - 1][i];
      }
    }
  }

  /** `Trim` keeps the infix of `s` between the white space it cuts from
      either end. */
  lemma TrimCutsWhitespace(s: string)
    ensures var e := TrimEnd(s);
            && OccursAt(s, Trim(s), |e| - |Trim(s)|)
            && (forall i :: 0 <= i < |e| - |Trim(s)| ==> IsJsWhitespace(s[i]))
            && (forall i :: |e| <= i < |s| ==> IsJsWhitespace(s[i]))
  {
    var e := TrimEnd(s);
    TrimEndCutsWhitespace(s);
    TrimStartCutsWhitespace(e);
    assert forall i :: 0 <= i < |e| ==> e[i] == s[i];
    assert Trim(s) == s[..|e|][|e| - |Trim(s)|..];
  }

  lemma {:induction false} TrimStartNoop(s: string)
    requires s == [] || !IsJsWhitespace(s[0])
    ensures TrimStart(s) == s
  {
  }

  lemma TrimIdempotent(s: string)
    ensures Trim(Trim(s)) == Trim(s)
  {
    var t := Trim(s);
    assert TrimEnd(t) == t;
    TrimStartNoop(t);
  }

  // ------------------------------------------------------------------
  // ASCII case mapping (String.prototype.toLowerCase / toUpperCase on ASCII)
  // ------------------------------------------------------------------

  function LowerChar(c: char): (r: char)
  {
    if 'A' <= c <= 'Z' then (c as int + 32) as char else c
  }

  function UpperChar(c: char): (r: char)
  {
    if 'a' <= c <= 'z' then (c as int - 32) as char else c
  }

  function Lower(s: string): (r: string)
    ensures |r| == |s| && forall i :: 0 <= i < |s| ==> r[i] == LowerChar(s[i])
  {
    if s == [] then [] else [LowerChar(s[0])] + Lower(s[1..])
  }

  function Upper(s: string): (r: string)
    ensures |r| == |s| && forall i :: 0 <= i < |s| ==> r[i] == UpperChar(s[i])
  {
    if s == [] then [] else [UpperChar(s[0])] + Upper(s[1..])
  }

  /** Prisma `contains` with `mode: 'insensitive'`: a case-folded infix test. */
  predicate ContainsInsensitive(haystack: string, needle: string)
  {
    IndexOf(Lower(haystack), Lower(needle)).Some?
  }

  // ------------------------------------------------------------------
  // Joining and splitting, counting
  // ------------------------------------------------------------------

  /** Array.prototype.join. */
  function Join(parts: seq<string>, sep: string): (r: string)
    ensures parts == [] ==> r == ""
    ensures |parts| == 1 ==> r == parts[0]
  {
    if parts == [] then ""
    else if |parts| == 1 then parts[0]
    else parts[0] + sep + Join(parts[1..], sep)
  }

  /** String.prototype.split on a one-character separator. */
  function Split(s: string, sep: char): (r: seq<string>)
    ensures |r| >= 1
    decreases |s|
  {
    match IndexOf(s, [sep])
    case None => [s]
    case Some(i) => [s[..i]] + Split(s[i + 1..], sep)
  }

  lemma {:induction false} SplitNoSeparator(s: string, sep: char)
    requires sep !in s
    ensures Split(s, sep) == [s]
  {
    forall j | 0 <= j <= |s| ensures !OccursAt(s, [sep], j) {
      if j < |s| {
        assert s[j] in s;
      }
    }
  }

  /** Splitting a join recovers the parts when no part contains the separator. */
  lemma {:induction false} SplitJoin(parts: seq<string>, sep: char)
    requires parts != []
    requires forall k :: 0 <= k < |parts| ==> sep !in parts[k]
    ensures Split(Join(parts, [sep]), sep) == parts
  {
    if |parts| == 1 {
      SplitNoSeparator(parts[0], sep);
    } else {
      var rest := Join(parts[1..], [sep]);
      assert Join(parts, [sep]) == parts[0] + [sep] + rest;
      SplitAfterFirst(parts[0], rest, sep);
      forall k | 0 <= k < |parts[1..]| ensures sep !in parts[1..][k] {
        assert parts[1..][k] == parts[k + 1];
      }
      SplitJoin(parts[1..], sep);
      assert parts == [parts[0]] + parts[1..];
    }
  }

  /** Splitting at the first separator. */
  lemma SplitAfterFirst(p: string, rest: string, sep: char)
    requires sep !in p
    ensures Split(p + [sep] + rest, sep) == [p] + Split(rest, sep)
  {
    var s := p + [sep] + rest;
    FirstSeparator(p, rest, sep);
    assert s[..|p|] == p && s[|p| + 1..] == rest;
  }

  /** The separator after a part free of it is the first one. */
  lemma FirstSeparator(p: string, rest: string, sep: char)
    requires sep !in p
    ensures IndexOf(p + [sep] + rest, [sep]) == Some(|p|)
  {
    var s := p + [sep] + rest;
    assert OccursAt(s, [sep], |p|);
    forall j | 0 <= j < |p| ensures !OccursAt(s, [sep], j) {
      assert s[j] == p[j];
    }
  }

  /** Number of occurrences of a character. */
  function CountChar(s: string, c: char): (r: nat)
    ensures r <= |s|
    ensures c !in s ==> r == 0
  {
    if s == [] then 0 else (if s[0] == c then 1 else 0) + CountChar(s[1..], c)
  }

  lemma {:induction false} CountCharAppend(a: string, b: string, c: char)
    ensures CountChar(a + b, c) == CountChar(a, c) + CountChar(b, c)
  {
    if a != [] {
      assert (a + b)[1..] == a[1..] + b;
      CountCharAppend(a[1..], b, c);
    } else {
      assert a + b == b;
    }
  }

  /** With a separator free of `c`, the occurrences of `c` in a join are those in its parts. */
  lemma {:induction false} CountCharJoin(parts: seq<string>, sep: string, c: char)
    requires c !in sep
    ensures CountChar(Join(parts, sep), c) == SumCounts(parts, c)
  {
    if |parts| > 1 {
      var rest := Join(parts[1..], sep);
      assert Join(parts, sep) == (parts[0] + sep) + rest;
      CountCharAppend(parts[0] + sep, rest, c);
      CountCharAppend(parts[0], sep, c);
      CountCharJoin(parts[1..], sep, c);
    } else if |parts| == 1 {
      assert parts[1..] == [];
    }
  }

  function SumCounts(parts: seq<string>, c: char): (r: nat)
  {
    if parts == [] then 0 else CountChar(parts[0], c) + SumCounts(parts[1..], c)
  }

  lemma {:induction false} SumCountsAppend(a: seq<string>, b: seq<string>, c: char)
    ensures SumCounts(a + b, c) == SumCounts(a, c) + SumCounts(b, c)
  {
    if a != [] {
      assert (a + b)[1..] == a[1..] + b;
      SumCountsAppend(a[1..], b, c);
    } else {
      assert a + b == b;
    }
  }

  // ------------------------------------------------------------------
  // Number formatting (String(n) for integers)
  // ------------------------------------------------------------------

  predicate IsDigit(c: char) { '0' <= c <= '9' }

  function NatToString(n: nat): (r: string)
    ensures r != [] && forall i :: 0 <= i < |r| ==> IsDigit(r[i])
  {
    if n < 10 then [('0' as int + n) as char]
    else NatToString(n / 10) + [('0' as int + n % 10) as char]
  }

  /** The number a string of decimal digits denotes. */
  function DigitsValue(s: string): (r: nat)
    requires forall i :: 0 <= i < |s| ==> IsDigit(s[i])
  {
    if s == [] then 0
    else
      assert IsDigit(s[|s| - 1]);
      10 * DigitsValue(s[..|s| - 1]) + (s[|s| - 1] as int - '0' as int)
  }

  /** The decimal rendering reads back as the number it renders. */
  lemma {:induction false} NatToStringValue(n: nat)
    ensures DigitsValue(NatToString(n)) == n
  {
    if n >= 10 {
      var r := NatToString(n);
      assert r[..|r| - 1] == NatToString(n / 10);
      NatToStringValue(n / 10);
    }
  }

  function IntToString(n: int): (r: string)
    ensures r != []
    ensures n >= 0 ==> r == NatToString(n)
    ensures n < 0 ==> r == "-" + NatToString(-n)
  {
    if n >= 0 then NatToString(n) else "-" + NatToString(-n)
  }
}
