/**
 * The JavaScript string primitives the application relies on: `\s`, `trim`,
 * `toLowerCase`, `endsWith`/`startsWith`, `split`/`join`, the
 * `replace(/\s+/g, '-')` sanitiser and number-to-decimal conversion.
 */
module Text {

  /** ECMAScript WhiteSpace and LineTerminator: the set `\s` matches and `trim` removes. */
  predicate IsWhitespace(c: char) {
    c == '\t' || c == '\n' || c == '\U{000B}' || c == '\U{000C}' || c == '\r' || c == ' '
    || c == '\U{00A0}' || c == '\U{1680}' || ('\U{2000}' <= c <= '\U{200A}')
    || c == '\U{2028}' || c == '\U{2029}' || c == '\U{202F}' || c == '\U{205F}'
    || c == '\U{3000}' || c == '\U{FEFF}'
  }

  predicate NoWhitespace(s: string) {
    forall i :: 0 <= i < |s| ==> !IsWhitespace(s[i])
  }

  predicate AllWhitespace(s: string) {
    forall i :: 0 <= i < |s| ==> IsWhitespace(s[i])
  }

  predicate StartsWith(s: string, prefix: string) {
    prefix <= s
  }

  predicate EndsWith(s: string, suffix: string) {
    |suffix| <= |s| && s[|s| - |suffix|..] == suffix
  }

  /** `toLowerCase` on the ASCII letters. */
  function LowerChar(c: char): char {
    if 'A' <= c <= 'Z' then (c as int + 32) as char else c
  }

  function ToLower(s: string): (r: string)
    ensures |r| == |s|
    ensures forall i :: 0 <= i < |s| ==> r[i] == LowerChar(s[i])
  {
    seq(|s|, i requires 0 <= i < |s| => LowerChar(s[i]))
  }

  lemma ToLowerAppend(a: string, b: string)
    ensures ToLower(a + b) == ToLower(a) + ToLower(b)
  {
  }

  // ---------------------------------------------------------------------------
  // split / join

  /** `s.split(sep)` for a one-character separator: never empty, empty pieces kept. */
  function Split(s: string, sep: char): (parts: seq<string>)
    ensures |parts| >= 1
  {
    if s == [] then [[]]
    else
      var rest := Split(s[1..], sep);
      if s[0] == sep then [[]] + rest else [[s[0]] + rest[0]] + rest[1..]
  }

  /** `parts.join(sep)`. */
  function Join(parts: seq<string>, sep: char): string {
    if parts == [] then []
    else if |parts| == 1 then parts[0]
    else parts[0] + [sep] + Join(parts[1..], sep)
  }

  function Last(parts: seq<string>): string
    requires |parts| >= 1
  {
    parts[|parts| - 1]
  }

  /** Joining the pieces of a split gives back the string, and no piece holds the separator. */
  lemma {:induction false} JoinSplit(s: string, sep: char)
    ensures Join(Split(s, sep), sep) == s
    ensures forall k :: 0 <= k < |Split(s, sep)| ==> sep !in Split(s, sep)[k]
  {
    if s != [] {
      JoinSplit(s[1..], sep);
      var rest := Split(s[1..], sep);
      SplitCons(s[0], s[1..], sep);
      assert [s[0]] + s[1..] == s;
      var parts := Split(s, sep);
      if s[0] == sep {
        JoinEmptyFirst(rest, sep);
        forall k | 0 <= k < |parts| ensures sep !in parts[k] {
          if k > 0 { assert parts[k] == rest[k - 1]; }
        }
      } else {
        JoinExtendedFirst(s[0], rest, sep);
        forall k | 0 <= k < |parts| ensures sep !in parts[k] {
          if k > 0 { assert parts[k] == rest[k]; }
        }
      }
    }
  }

  /** An empty first piece contributes only its separator. */
  lemma JoinEmptyFirst(parts: seq<string>, sep: char)
    requires |parts| >= 1
    ensures Join([[]] + parts, sep) == [sep] + Join(parts, sep)
  {
    assert ([[]] + parts)[1..] == parts;
  }

  /** A character put in front of the first piece comes first in the join. */
  lemma JoinExtendedFirst(c: char, parts: seq<string>, sep: char)
    requires |parts| >= 1
    ensures Join([[c] + parts[0]] + parts[1..], sep) == [c] + Join(parts, sep)
  {
    var whole := [[c] + parts[0]] + parts[1..];
    if |parts| > 1 {
      assert whole[1..] == parts[1..];
      AppendAssociative([c], parts[0], [sep]);
      AppendAssociative([c], parts[0] + [sep], Join(parts[1..], sep));
    }
  }

  /** A string without the separator splits into itself. */
  lemma {:induction false} SplitWithoutSeparator(s: string, sep: char)
    requires sep !in s
    ensures Split(s, sep) == [s]
  {
    if s != [] {
      SplitWithoutSeparator(s[1..], sep);
      assert [s[0]] + s[1..] == s;
    }
  }

  /** One step of `Split`: how the first character joins the pieces of the rest. */
  lemma SplitCons(c: char, t: string, sep: char)
    ensures Split([c] + t, sep)
            == if c == sep then [[]] + Split(t, sep)
               else [[c] + Split(t, sep)[0]] + Split(t, sep)[1..]
  {
    assert ([c] + t)[1..] == t;
  }

  /** Splitting distributes over one occurrence of the separator. */
  lemma {:induction false} SplitAtSeparator(a: string, b: string, sep: char)
    ensures Split(a + [sep] + b, sep) == Split(a, sep) + Split(b, sep)
  {
    if a == [] {
      assert a + [sep] + b == [sep] + b;
      SplitCons(sep, b, sep);
    } else {
      var c, a' := a[0], a[1..];
      assert a == [c] + a';
      assert a + [sep] + b == [c] + (a' + [sep] + b);
      SplitAtSeparator(a', b, sep);
      SplitConsPrefix(c, a', a' + [sep] + b, Split(b, sep), sep);
    }
  }

  /** A character put in front of two strings whose splits differ by a suffix of pieces keeps them differing by it. */
  lemma SplitConsPrefix(c: char, t: string, u: string, more: seq<string>, sep: char)
    requires Split(u, sep) == Split(t, sep) + more
    ensures Split([c] + u, sep) == Split([c] + t, sep) + more
  {
    SplitCons(c, u, sep);
    SplitCons(c, t, sep);
    if c == sep {
      PiecesAppend([], Split(t, sep), more);
    } else {
      ExtendFirstPiece([c], Split(t, sep), more);
    }
  }

  lemma PiecesAppend(first: string, rest: seq<string>, more: seq<string>)
    ensures [first] + (rest + more) == ([first] + rest) + more
  {
  }

  lemma ExtendFirstPiece(prefix: string, pieces: seq<string>, more: seq<string>)
    requires |pieces| >= 1
    ensures [prefix + (pieces + more)[0]] + (pieces + more)[1..] == ([prefix + pieces[0]] + pieces[1..]) + more
  {
    assert (pieces + more)[0] == pieces[0];
    assert (pieces + more)[1..] == pieces[1..] + more;
  }

  /** The first piece of a split: `a` is the text before the first separator of `a + b`. */
  lemma {:induction false} SplitHead(a: string, b: string, sep: char)
    requires sep !in a
    ensures Split(a + b, sep)[0] == a + Split(b, sep)[0]
  {
    if a == [] {
      assert a + b == b;
    } else {
      SplitHead(a[1..], b, sep);
      assert a + b == [a[0]] + (a[1..] + b);
      SplitCons(a[0], a[1..] + b, sep);
      AppendAssociative([a[0]], a[1..], Split(b, sep)[0]);
      assert [a[0]] + a[1..] == a;
    }
  }

  /** The last piece of `a + sep + e` is `e` when `e` holds no separator. */
  lemma AfterLastSeparator(a: string, e: string, sep: char)
    requires sep !in e
    ensures Last(Split(a + [sep] + e, sep)) == e
  {
    SplitAtSeparator(a, e, sep);
    SplitWithoutSeparator(e, sep);
  }

  // ---------------------------------------------------------------------------
  // trim and the whitespace sanitiser

  function TrimStart(s: string): (r: string)
    ensures |r| <= |s| && r == s[|s| - |r|..]
    ensures r == [] || !IsWhitespace(r[0])
    ensures AllWhitespace(s[..|s| - |r|])
  {
    if s != [] && IsWhitespace(s[0]) then TrimStart(s[1..]) else s
  }

  function TrimEnd(s: string): (r: string)
    ensures |r| <= |s| && r == s[..|r|]
    ensures AllWhitespace(s[|r|..])
  {
    if s != [] && IsWhitespace(s[|s| - 1]) then
      var init := s[..|s| - 1];
      var r := TrimEnd(init);
      assert s[|r|..] == init[|r|..] + [s[|s| - 1]];
      r
    else s
  }

  /** Joining three strings does not depend on how they are grouped. */
  lemma AppendAssociative(a: string, b: string, c: string)
    ensures (a + b) + c == a + (b + c)
  {
  }

  /** `s.trim()`. */
  function Trim(s: string): string {
    TrimEnd(TrimStart(s))
  }

  /** A string trims to nothing exactly when every character of it is whitespace. */
  lemma {:induction false} TrimEmptyIff(s: string)
    ensures Trim(s) == [] <==> AllWhitespace(s)
  {
    var t := TrimStart(s);
    if Trim(s) == [] {
      assert t[0..] == t;
      assert t == [];
      assert s[..|s|] == s;
    }
  }

  /** `name.replace(/\s+/g, '-')`: every maximal whitespace run becomes one hyphen. */
  function HyphenateWhitespace(s: string): (r: string)
    decreases |s|
  {
    if s == [] then []
    else if IsWhitespace(s[0]) then "-" + HyphenateWhitespace(TrimStart(s[1..]))
    else [s[0]] + HyphenateWhitespace(s[1..])
  }

  /** The sanitised name holds no whitespace and is never longer than the original. */
  lemma {:induction false} HyphenateRemovesWhitespace(s: string)
    ensures NoWhitespace(HyphenateWhitespace(s))
    ensures |HyphenateWhitespace(s)| <= |s|
    decreases |s|
  {
    if s == [] {
    } else if IsWhitespace(s[0]) {
      HyphenateRemovesWhitespace(TrimStart(s[1..]));
      assert !IsWhitespace('-');
    } else {
      HyphenateRemovesWhitespace(s[1..]);
    }
  }

  /** A name without whitespace is left as it is. */
  lemma {:induction false} HyphenateKeepsClean(s: string)
    requires NoWhitespace(s)
    ensures HyphenateWhitespace(s) == s
  {
    if s != [] {
      HyphenateKeepsClean(s[1..]);
      assert [s[0]] + s[1..] == s;
    }
  }

  /** Sanitising twice is sanitising once. */
  lemma HyphenateIdempotent(s: string)
    ensures HyphenateWhitespace(HyphenateWhitespace(s)) == HyphenateWhitespace(s)
  {
    HyphenateRemovesWhitespace(s);
    HyphenateKeepsClean(HyphenateWhitespace(s));
  }

  // ---------------------------------------------------------------------------
  // numbers as decimal text

  predicate IsDigit(c: char) {
    '0' <= c <= '9'
  }

  function DigitChar(d: nat): (c: char)
    requires d < 10
    ensures IsDigit(c)
  {
    ('0' as int + d) as char
  }

  /** `String(n)` for a non-negative integer: its decimal digits, no sign, no leading zero. */
  function NatToString(n: nat): (r: string)
    ensures |r| >= 1
    ensures forall i :: 0 <= i < |r| ==> IsDigit(r[i])
    ensures n >= 10 <==> |r| >= 2
  {
    if n < 10 then [DigitChar(n)] else NatToString(n / 10) + [DigitChar(n % 10)]
  }

  /** Distinct numbers have distinct decimal texts. */
  lemma {:induction false} NatToStringInjective(a: nat, b: nat)
    requires NatToString(a) == NatToString(b)
    ensures a == b
  {
    if a >= 10 && b >= 10 {
      var ra, rb := NatToString(a), NatToString(b);
      assert ra[|ra| - 1] == rb[|rb| - 1];
      assert a % 10 == b % 10;
      assert ra[..|ra| - 1] == NatToString(a / 10);
      assert rb[..|rb| - 1] == NatToString(b / 10);
      NatToStringInjective(a / 10, b / 10);
    }
  }
}
