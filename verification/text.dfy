/** The string primitives the modelled code relies on: `string.IsNullOrWhiteSpace`,
    `Trim`, ordinal and ordinal-ignore-case comparison, and `Split`.

    Whitespace is the ASCII set (space, tab, line feed, vertical tab, form feed,
    carriage return) and case folding is ASCII; the Unicode tables of .NET are
    not modelled.
 */
module Text {
  import opened Wrappers

  /** `char.IsWhiteSpace`, restricted to ASCII. */
  predicate IsWhiteSpace(c: char) {
    c == ' ' || c == '\t' || c == '\n' || c == '\U{0B}' || c == '\U{0C}' || c == '\r'
  }

  /** `string.IsNullOrWhiteSpace` on a non-null string. */
  predicate IsBlank(s: string) {
    forall i :: 0 <= i < |s| ==> IsWhiteSpace(s[i])
  }

  /** `string.IsNullOrWhiteSpace` on a nullable string. */
  predicate IsNullOrWhiteSpace(s: Option<string>) {
    s.None? || IsBlank(s.value)
  }

  /** A whitespace character before a blank string leaves it blank. */
  lemma BlankCons(c: char, t: string)
    requires IsWhiteSpace(c) && IsBlank(t)
    ensures IsBlank([c] + t)
  {
    forall i | 0 <= i < |[c] + t|
      ensures IsWhiteSpace(([c] + t)[i])
    {
      if i > 0 {
        assert ([c] + t)[i] == t[i - 1];
      }
    }
  }

  /** `TrimStart()`: the suffix left after dropping leading whitespace. */
  function TrimStart(s: string): (r: string)
    ensures |r| <= |s| && r == s[|s| - |r|..]
    ensures IsBlank(s[..|s| - |r|])
    ensures |r| > 0 ==> !IsWhiteSpace(r[0])
  {
    if |s| > 0 && IsWhiteSpace(s[0]) then
      var r := TrimStart(s[1..]);
      var k := |s| - |r|;
      assert s[1..][k - 1..] == s[k..];
      BlankCons(s[0], s[1..][..k - 1]);
      assert s[..k] == [s[0]] + s[1..][..k - 1];
      r
    else
      s
  }

  /** `TrimEnd()`: the prefix left after dropping trailing whitespace. */
  function TrimEnd(s: string): (r: string)
    ensures |r| <= |s| && r == s[..|r|]
    ensures IsBlank(s[|r|..])
    ensures |r| > 0 ==> !IsWhiteSpace(r[|r| - 1])
  {
    if |s| > 0 && IsWhiteSpace(s[|s| - 1]) then
      var r := TrimEnd(s[..|s| - 1]);
      assert s[|r|..] == s[..|s| - 1][|r|..] + [s[|s| - 1]];
      r
    else
      s
  }

  /** `Trim()`: the string with whitespace dropped from both ends. It is empty
      exactly when the input is blank, and otherwise starts and ends with a
      non-whitespace character. */
  function Trim(s: string): (r: string)
    ensures |r| <= |s|
    ensures IsBlank(s) <==> r == []
    ensures |r| > 0 ==> !IsWhiteSpace(r[0]) && !IsWhiteSpace(r[|r| - 1])
  {
    var t := TrimStart(s);
    var r := TrimEnd(t);
    TrimBlankIff(s, t, r);
    r
  }

  /** The two trimming passes leave nothing exactly when the input is blank. */
  lemma TrimBlankIff(s: string, t: string, r: string)
    requires t == TrimStart(s) && r == TrimEnd(t)
    ensures IsBlank(s) <==> r == []
  {
    var k := |s| - |t|;
    if |t| == 0 {
      assert s[..k] == s;
    } else {
      assert s[k] == t[0];
    }
  }

  /** Trimming only removes whitespace: the result sits inside the input, with
      nothing but whitespace on either side of it. */
  lemma TrimIsInfix(s: string) returns (i: nat)
    ensures i + |Trim(s)| <= |s|
    ensures Trim(s) == s[i..i + |Trim(s)|]
    ensures IsBlank(s[..i]) && IsBlank(s[i + |Trim(s)|..])
  {
    var t := TrimStart(s);
    assert Trim(s) == TrimEnd(t);
    i := |s| - |t|;
    InfixParts(s, t, Trim(s));
  }

  /** A blank prefix dropped and then a blank suffix dropped leave an infix
      with blank strings on either side. */
  lemma InfixParts(s: string, t: string, r: string)
    requires |t| <= |s| && t == s[|s| - |t|..] && IsBlank(s[..|s| - |t|])
    requires |r| <= |t| && r == t[..|r|] && IsBlank(t[|r|..])
    ensures var i := |s| - |t|;
      r == s[i..i + |r|] && IsBlank(s[..i]) && IsBlank(s[i + |r|..])
  {
    var i := |s| - |t|;
    assert s[i..][..|r|] == s[i..i + |r|];
    assert s[i..][|r|..] == s[i + |r|..];
  }

  /** A string with no whitespace at either end: what `Trim` returns. */
  predicate IsTrimmed(s: string) {
    |s| == 0 || (!IsWhiteSpace(s[0]) && !IsWhiteSpace(s[|s| - 1]))
  }

  /** `Trim` returns a trimmed string. */
  lemma TrimIsTrimmed(s: string)
    ensures IsTrimmed(Trim(s))
  {
  }

  /** A string that is empty, or starts and ends with non-whitespace, is its
      own trim. */
  lemma TrimOfTrimmed(s: string)
    requires IsTrimmed(s)
    ensures Trim(s) == s
  {
  }

  /** Trimming twice is trimming once. */
  lemma TrimIdempotent(s: string)
    ensures Trim(Trim(s)) == Trim(s)
  {
    TrimOfTrimmed(Trim(s));
  }

  /** A trimmed string is blank only when it is empty. */
  lemma TrimmedBlankIsEmpty(s: string)
    ensures IsBlank(Trim(s)) <==> IsBlank(s)
  {
    if |Trim(s)| > 0 {
      assert !IsWhiteSpace(Trim(s)[0]);
    }
  }

  /** `(s ?? "").Trim()` and similar: the trimmed string, or "" for null. */
  function TrimOrEmpty(s: Option<string>): (r: string)
    ensures s.None? ==> r == []
    ensures s.Some? ==> r == Trim(s.value)
  {
    match s
    case None => []
    case Some(v) => Trim(v)
  }

  /** `TrimOrEmpty` returns a trimmed string. */
  lemma TrimOrEmptyIsTrimmed(s: Option<string>)
    ensures IsTrimmed(TrimOrEmpty(s))
  {
    if s.Some? {
      TrimIsTrimmed(s.value);
    }
  }

  /** A string kept only when it is not blank. */
  function NonBlank(s: string): (r: Option<string>)
    ensures r.None? <==> IsBlank(s)
    ensures r.Some? ==> r.value == s
  {
    if IsBlank(s) then None else Some(s)
  }

  /** `string.IsNullOrWhiteSpace(v) ? fallback : v.Trim()`: the trimmed
      value, or the fallback when the value is missing or blank. */
  function TrimmedOr(value: Option<string>, fallback: string): (r: string)
    ensures IsNullOrWhiteSpace(value) ==> r == fallback
    ensures !IsNullOrWhiteSpace(value) ==> r == Trim(value.value) && !IsBlank(r)
  {
    if IsNullOrWhiteSpace(value) then fallback
    else
      TrimmedBlankIsEmpty(value.value);
      Trim(value.value)
  }

  /** The recurring normalisation `IsNullOrWhiteSpace(v) ? null : v.Trim()`.
      The result is null or a non-blank trimmed string. */
  function NullIfBlank(s: Option<string>): (r: Option<string>)
    ensures r.None? <==> IsNullOrWhiteSpace(s)
    ensures r.Some? ==> r.value == Trim(s.value) && !IsBlank(r.value)
  {
    if IsNullOrWhiteSpace(s) then None else Some(Trim(s.value))
  }

  /** `r` is what the normalisation makes of `s`: null exactly when `s` is
      null or blank, and otherwise the trimmed `s`. */
  predicate NormalisedFrom(r: Option<string>, s: Option<string>) {
    && (r.None? <==> IsNullOrWhiteSpace(s))
    && (r.Some? ==> r.value == Trim(s.value))
  }

  /** A value is normalised when it is null or a non-blank trimmed string. */
  predicate IsNormalised(s: Option<string>) {
    s.None? || (!IsBlank(s.value) && Trim(s.value) == s.value)
  }

  /** `NullIfBlank` yields normalised values. */
  lemma NullIfBlankIsNormalised(s: Option<string>)
    ensures IsNormalised(NullIfBlank(s))
  {
    if s.Some? && !IsBlank(s.value) {
      TrimIdempotent(s.value);
      TrimmedBlankIsEmpty(s.value);
    }
  }

  /** `NullIfBlank` both meets its description and yields a normalised value. */
  lemma NullIfBlankNormalises(s: Option<string>)
    ensures NormalisedFrom(NullIfBlank(s), s) && IsNormalised(NullIfBlank(s))
  {
    NullIfBlankIsNormalised(s);
  }

  /** A normalised value is left unchanged by the normalisation. */
  lemma NormalisedFixed(s: Option<string>)
    requires IsNormalised(s)
    ensures NullIfBlank(s) == s
  {
  }

  /** Normalising again changes nothing. */
  lemma NullIfBlankIdempotent(s: Option<string>)
    ensures NullIfBlank(NullIfBlank(s)) == NullIfBlank(s)
  {
    NullIfBlankIsNormalised(s);
    NormalisedFixed(NullIfBlank(s));
  }

  /** ASCII case folding, the model of `StringComparison.OrdinalIgnoreCase`. */
  function FoldChar(c: char): char {
    if 'A' <= c <= 'Z' then (c as int + 32) as char else c
  }

  function Lower(s: string): (r: string)
    ensures |r| == |s|
  {
    seq(|s|, i requires 0 <= i < |s| => FoldChar(s[i]))
  }

  /** `string.Equals(a, b, StringComparison.OrdinalIgnoreCase)`. */
  predicate EqualsIgnoreCase(a: string, b: string) {
    Lower(a) == Lower(b)
  }

  /** Strings of different lengths differ, whatever their letter case. */
  lemma LengthsDiffer(a: string, b: string)
    requires |a| != |b|
    ensures !EqualsIgnoreCase(a, b)
  {
    assert |Lower(a)| != |Lower(b)|;
  }

  /** `s.StartsWith(p, StringComparison.Ordinal)`. */
  predicate StartsWith(s: string, p: string) {
    p <= s
  }

  /** `s.StartsWith(p, StringComparison.OrdinalIgnoreCase)`. */
  predicate StartsWithIgnoreCase(s: string, p: string) {
    |p| <= |s| && EqualsIgnoreCase(s[..|p|], p)
  }

  /** Index of the first character of `s` that is in `seps`, or `|s|` when
      there is none. */
  function IndexOfAny(s: string, seps: set<char>): (i: nat)
    ensures i <= |s|
    ensures forall k :: 0 <= k < i ==> s[k] !in seps
    ensures i < |s| ==> s[i] in seps
  {
    if |s| == 0 || s[0] in seps then 0 else 1 + IndexOfAny(s[1..], seps)
  }

  /** `s.Split(seps)` without options: the pieces between separators, empty
      pieces included, so there is always at least one piece. */
  function Split(s: string, seps: set<char>): (r: seq<string>)
    ensures |r| >= 1
    ensures forall k, j :: 0 <= k < |r| && 0 <= j < |r[k]| ==> r[k][j] !in seps
    decreases |s|
  {
    var i := IndexOfAny(s, seps);
    if i == |s| then [s] else [s[..i]] + Split(s[i + 1..], seps)
  }

  /** `string.Join(sep, pieces)`. */
  function Join(pieces: seq<string>, sep: char): string
    requires |pieces| >= 1
  {
    if |pieces| == 1 then pieces[0] else pieces[0] + [sep] + Join(pieces[1..], sep)
  }

  /** Splitting on one separator loses nothing: joining the pieces back with
      that separator gives the original string. */
  lemma {:induction false} SplitJoin(s: string, sep: char)
    ensures Join(Split(s, {sep}), sep) == s
    decreases |s|
  {
    var i := IndexOfAny(s, {sep});
    if i < |s| {
      var rest := Split(s[i + 1..], {sep});
      assert Split(s, {sep}) == [s[..i]] + rest;
      SplitJoin(s[i + 1..], sep);
      assert ([s[..i]] + rest)[1..] == rest;
      assert Join([s[..i]] + rest, sep) == s[..i] + [sep] + Join(rest, sep);
      assert s == s[..i] + [sep] + s[i + 1..];
    } else {
      assert Split(s, {sep}) == [s];
    }
  }

  /** The first separator in `p + t` is where `t` starts, when `p` holds
      none and `t` is empty or opens with one. */
  lemma {:induction false} IndexOfAnyAfterPrefix(p: string, t: string, seps: set<char>)
    requires forall j :: 0 <= j < |p| ==> p[j] !in seps
    requires |t| == 0 || t[0] in seps
    ensures IndexOfAny(p + t, seps) == |p|
    decreases |p|
  {
    if |p| > 0 {
      assert (p + t)[0] == p[0];
      assert (p + t)[1..] == p[1..] + t;
      IndexOfAnyAfterPrefix(p[1..], t, seps);
    } else {
      assert p + t == t;
    }
  }

  /** Joining pieces that contain none of the separators with one of them,
      and splitting the result on them, gives the pieces back. */
  lemma {:induction false} JoinSplit(pieces: seq<string>, sep: char, seps: set<char>)
    requires |pieces| >= 1 && sep in seps
    requires forall k, j :: 0 <= k < |pieces| && 0 <= j < |pieces[k]| ==> pieces[k][j] !in seps
    ensures Split(Join(pieces, sep), seps) == pieces
    decreases |pieces|
  {
    var first := pieces[0];
    assert forall j :: 0 <= j < |first| ==> first[j] !in seps;
    if |pieces| == 1 {
      assert first + [] == first;
      IndexOfAnyAfterPrefix(first, [], seps);
    } else {
      var rest := Join(pieces[1..], sep);
      var joined := first + [sep] + rest;
      assert joined == first + ([sep] + rest);
      IndexOfAnyAfterPrefix(first, [sep] + rest, seps);
      assert joined[..|first|] == first;
      assert joined[|first| + 1..] == rest;
      JoinSplit(pieces[1..], sep, seps);
      assert pieces == [first] + pieces[1..];
    }
  }
}
