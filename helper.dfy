/**
 * The string helpers of the `Helper` class: JavaScript's `String.prototype.slice`,
 * removing and completing a keyword at either border of a string, zero padding,
 * the conversion of attribute names to lower camel case, and the dual-mode
 * comparator used to order the playlist.
 *
 * Every helper takes its keyword explicitly; the source defaults it to "/".
 */
module Helper {
  import opened Wrappers

  // ------------------------------------------------------------------ slice

  /** How `slice` resolves one argument against a string of length `len`:
      a negative argument counts from the end, and the result is clamped. */
  function ResolveIndex(len: nat, x: int): (k: nat)
    ensures k <= len
  {
    if x < 0 then (if len + x < 0 then 0 else len + x)
    else if x > len then len
    else x
  }

  /** `s.slice(start, end)`. */
  function Slice(s: string, start: int, end: int): string
  {
    var from := ResolveIndex(|s|, start);
    var to := ResolveIndex(|s|, end);
    if from < to then s[from..to] else []
  }

  predicate EndsWith(s: string, keyword: string)
  {
    |keyword| <= |s| && s[|s| - |keyword|..] == keyword
  }

  /** `content.slice(0, keyword.length) === keyword` is a prefix test. */
  lemma SliceHeadIsPrefix(content: string, keyword: string)
    ensures Slice(content, 0, |keyword|) == keyword <==> keyword <= content
  {
    if 0 < |keyword| <= |content| {
      assert Slice(content, 0, |keyword|) == content[..|keyword|];
    }
  }

  /** For a non-empty keyword, `content.slice(-keyword.length) === keyword` is a suffix test. */
  lemma SliceTailIsSuffix(content: string, keyword: string)
    ensures |keyword| > 0 ==>
      (Slice(content, -|keyword|, |content|) == keyword <==> EndsWith(content, keyword))
  {
    if |keyword| == 0 {
    } else if |content| >= |keyword| {
      assert Slice(content, -|keyword|, |content|) == content[|content| - |keyword|..];
    } else {
      assert |Slice(content, -|keyword|, |content|)| <= |content|;
    }
  }

  // ------------------------------------------------- removing and completing

  /**
   * `removeStart` as the source writes it: on a match it keeps
   * `content.slice(keyword.length, content.length - keyword.length + 1)`, so
   * besides the keyword it also drops `|keyword| - 1` characters at the end.
   */
  function RemoveStartAsWritten(content: string, keyword: string): (r: string)
    ensures !(keyword <= content) ==> r == content
    ensures |keyword| == 0 ==> r == content
    ensures keyword <= content && |keyword| > 0 ==>
      r == content[|keyword|..Max(|keyword|, |content| - |keyword| + 1)]
  {
    SliceHeadIsPrefix(content, keyword);
    if Slice(content, 0, |keyword|) == keyword then
      Slice(content, |keyword|, |content| - |keyword| + 1)
    else
      content
  }

  function Max(a: int, b: int): int { if a < b then b else a }

  /**
   * `removeStart` as evidently intended: drop the keyword once when the
   * content starts with it, otherwise return the content unchanged.
   */
  function RemoveStart(content: string, keyword: string): (r: string)
    ensures keyword <= content ==> content == keyword + r
    ensures !(keyword <= content) ==> r == content
  {
    SliceHeadIsPrefix(content, keyword);
    if Slice(content, 0, |keyword|) == keyword then
      Slice(content, |keyword|, |content|)
    else
      content
  }

  /** Drop the keyword once when the content ends with it (an empty keyword changes nothing). */
  function RemoveEnd(content: string, keyword: string): (r: string)
    ensures |keyword| > 0 && EndsWith(content, keyword) ==> content == r + keyword
    ensures !(|keyword| > 0 && EndsWith(content, keyword)) ==> r == content
  {
    SliceTailIsSuffix(content, keyword);
    if Slice(content, -|keyword|, |content|) == keyword then
      Slice(content, 0, |content| - |keyword|)
    else
      content
  }

  function RemoveBorder(content: string, keyword: string): (r: string)
    ensures |r| <= |content|
    ensures |keyword| > 0 && keyword <= content && EndsWith(content, keyword) && |content| >= 2 * |keyword| ==>
      r == content[|keyword|..|content| - |keyword|]
  {
    BorderMiddle(content, keyword);
    RemoveEnd(RemoveStart(content, keyword), keyword)
  }

  lemma BorderMiddle(content: string, keyword: string)
    ensures |keyword| > 0 && keyword <= content && EndsWith(content, keyword) && |content| >= 2 * |keyword| ==>
      RemoveEnd(RemoveStart(content, keyword), keyword) == content[|keyword|..|content| - |keyword|]
  {
    if |keyword| > 0 && keyword <= content && EndsWith(content, keyword) && |content| >= 2 * |keyword| {
      var a := RemoveStart(content, keyword);
      assert a == content[|keyword|..];
      assert a[|a| - |keyword|..] == content[|content| - |keyword|..];
      var r := RemoveEnd(a, keyword);
      assert a == r + keyword;
      assert r == a[..|a| - |keyword|];
    }
  }

  /** Prefix the keyword unless the content already starts with it. */
  function CompleteStart(content: string, keyword: string): (r: string)
    ensures keyword <= r
    ensures keyword <= content ==> r == content
    ensures !(keyword <= content) ==> r == keyword + content
  {
    SliceHeadIsPrefix(content, keyword);
    if Slice(content, 0, |keyword|) != keyword then keyword + content else content
  }

  /** Append the keyword unless the content already ends with it. */
  function CompleteEnd(content: string, keyword: string): (r: string)
    ensures EndsWith(r, keyword)
    ensures EndsWith(content, keyword) ==> r == content
    ensures !EndsWith(content, keyword) ==> r == content + keyword
  {
    SliceTailIsSuffix(content, keyword);
    assert |keyword| == 0 ==> content[|content|..] == keyword;
    if Slice(content, -|keyword|, |content|) != keyword then content + keyword else content
  }

  function CompleteBorder(content: string, keyword: string): (r: string)
    ensures keyword <= r && EndsWith(r, keyword)
  {
    var started := CompleteStart(content, keyword);
    var r := CompleteEnd(started, keyword);
    assert keyword <= r by {
      if r != started {
        assert r == started + keyword;
        assert r[..|keyword|] == started[..|keyword|];
      }
    }
    r
  }

  lemma CompleteStartIdempotent(content: string, keyword: string)
    ensures CompleteStart(CompleteStart(content, keyword), keyword) == CompleteStart(content, keyword)
  {}

  lemma CompleteEndIdempotent(content: string, keyword: string)
    ensures CompleteEnd(CompleteEnd(content, keyword), keyword) == CompleteEnd(content, keyword)
  {}

  lemma CompleteBorderIdempotent(content: string, keyword: string)
    ensures CompleteBorder(CompleteBorder(content, keyword), keyword) == CompleteBorder(content, keyword)
  {}

  /** Removing what `CompleteStart` added gives the content back. */
  lemma RemoveStartCompleteStart(content: string, keyword: string)
    requires !(keyword <= content)
    ensures RemoveStart(CompleteStart(content, keyword), keyword) == content
  {
    var c := CompleteStart(content, keyword);
    assert c == keyword + content;
    assert keyword <= c;
    assert c == keyword + RemoveStart(c, keyword);
    assert RemoveStart(c, keyword) == c[|keyword|..];
  }

  /** Removing what `CompleteEnd` added gives the content back. */
  lemma RemoveEndCompleteEnd(content: string, keyword: string)
    requires |keyword| > 0 && !EndsWith(content, keyword)
    ensures RemoveEnd(CompleteEnd(content, keyword), keyword) == content
  {
    var c := CompleteEnd(content, keyword);
    assert c == content + keyword;
    assert c == RemoveEnd(c, keyword) + keyword;
    assert RemoveEnd(c, keyword) == c[..|c| - |keyword|];
  }

  /** For a one-character keyword the as-written `removeStart` is the intended one. */
  lemma RemoveStartAsWrittenOneChar(content: string, keyword: string)
    requires |keyword| <= 1
    ensures RemoveStartAsWritten(content, keyword) == RemoveStart(content, keyword)
  {
    if keyword <= content && |keyword| == 1 {
      assert content == keyword + RemoveStart(content, keyword);
      assert RemoveStart(content, keyword) == content[1..];
    }
  }

  /**
   * `removeBorder` as written composes the as-written `removeStart`; for a
   * keyword of at most one character, "/" included, it is the modelled one.
   */
  lemma RemoveBorderAsWrittenOneChar(content: string, keyword: string)
    requires |keyword| <= 1
    ensures RemoveEnd(RemoveStartAsWritten(content, keyword), keyword) == RemoveBorder(content, keyword)
  {
    RemoveStartAsWrittenOneChar(content, keyword);
  }

  /** For a longer keyword the two differ: "abXYab" loses "ab" at both ends and one more "b" as written. */
  lemma RemoveBorderAsWrittenExample()
    ensures RemoveEnd(RemoveStartAsWritten("abXYab", "ab"), "ab") == "XYa"
    ensures RemoveBorder("abXYab", "ab") == "XY"
  {
    var content := "abXYab";
    assert "ab" <= content;
    assert RemoveStartAsWritten(content, "ab") == content[2..5] == "XYa";
    assert !EndsWith("XYa", "ab");
    assert content[|content| - 2..] == "ab";
    assert RemoveBorder(content, "ab") == content[2..4] == "XY";
  }

  /** For any longer keyword the as-written `removeStart` also loses the tail. */
  lemma RemoveStartAsWrittenLosesTail(content: string, keyword: string)
    requires |keyword| >= 2 && keyword <= content && |content| > |keyword|
    ensures |RemoveStartAsWritten(content, keyword)| < |RemoveStart(content, keyword)|
  {
    assert content == keyword + RemoveStart(content, keyword);
  }

  /** The concrete input: "abcd" without its leading "ab" should be "cd". */
  lemma RemoveStartAsWrittenExample()
    ensures RemoveStartAsWritten("abcd", "ab") == "c"
    ensures RemoveStart("abcd", "ab") == "cd"
  {
    assert "ab" <= "abcd";
    assert "abcd" == "ab" + "cd";
  }

  // ---------------------------------------------------------- decimal digits

  predicate IsDigit(c: char) { '0' <= c <= '9' }

  predicate AllDigits(s: string) { forall i | 0 <= i < |s| :: IsDigit(s[i]) }

  /** The keys that `Number()` turns into a number in this model: non-empty digit strings. */
  predicate IsNumeric(s: string) { |s| > 0 && AllDigits(s) }

  function DigitValue(c: char): nat
    requires IsDigit(c)
  {
    c as int - '0' as int
  }

  function DigitChar(d: nat): (c: char)
    requires d < 10
    ensures IsDigit(c) && DigitValue(c) == d
  {
    ('0' as int + d) as char
  }

  /** The number a digit string denotes. */
  function DecimalValue(s: string): nat
    requires AllDigits(s)
  {
    if s == [] then 0 else 10 * DecimalValue(s[..|s| - 1]) + DigitValue(s[|s| - 1])
  }

  /** The decimal representation of a natural number, without leading zeros. */
  function Decimal(n: nat): (r: string)
    ensures IsNumeric(r)
    ensures |r| > 1 ==> r[0] != '0'
  {
    if n < 10 then [DigitChar(n)] else Decimal(n / 10) + [DigitChar(n % 10)]
  }

  /** `String(n)` for an integer. */
  function NumberToString(n: int): (r: string)
    ensures |r| >= 1
  {
    if n < 0 then "-" + Decimal(-n) else Decimal(n)
  }

  lemma {:induction false} DecimalRoundTrip(n: nat)
    ensures DecimalValue(Decimal(n)) == n
  {
    if n >= 10 {
      var s := Decimal(n);
      assert s[..|s| - 1] == Decimal(n / 10);
      DecimalRoundTrip(n / 10);
    }
  }

  function Zeros(k: nat): (r: string)
    ensures |r| == k && AllDigits(r)
    ensures forall i | 0 <= i < k :: r[i] == '0'
  {
    seq(k, i => '0')
  }

  /** Leading zeros do not change the value of a digit string. */
  lemma {:induction false} LeadingZeros(k: nat, s: string)
    requires AllDigits(s)
    ensures AllDigits(Zeros(k) + s) && DecimalValue(Zeros(k) + s) == DecimalValue(s)
  {
    var t := Zeros(k) + s;
    if s == [] {
      assert t == Zeros(k);
      ZerosValue(k);
    } else {
      LeadingZeros(k, s[..|s| - 1]);
      assert t[..|t| - 1] == Zeros(k) + s[..|s| - 1];
    }
  }

  lemma {:induction false} ZerosValue(k: nat)
    ensures DecimalValue(Zeros(k)) == 0
  {
    if k > 0 {
      assert Zeros(k)[..k - 1] == Zeros(k - 1);
      ZerosValue(k - 1);
    }
  }

  // ----------------------------------------------------------------- padding

  /**
   * `padding(number, length)`: `length - 1` zeros (none for length 0) followed
   * by the decimal form of the number, of which the last `length` characters
   * are kept (the whole string for length 0). A negative length makes the
   * source throw and is excluded by the type.
   */
  function Padding(number: int, length: nat): (r: string)
    ensures length == 0 ==> r == NumberToString(number)
    ensures length > 0 ==> |r| == length
    ensures length > 0 && |NumberToString(number)| <= length ==>
      r == Zeros(length - |NumberToString(number)|) + NumberToString(number)
    ensures length > 0 && |NumberToString(number)| > length ==>
      r == NumberToString(number)[|NumberToString(number)| - length..]
  {
    var digits := NumberToString(number);
    var filler: string := if length == 0 then [] else Zeros(length - 1);
    var filled := filler + digits;
    PaddedTail(digits, length);
    assert length == 0 ==> filled == digits;
    Slice(filled, -(length as int), |filled|)
  }

  /** The last `length` characters of `length - 1` zeros followed by the digits. */
  lemma PaddedTail(digits: string, length: nat)
    requires |digits| >= 1
    ensures length > 0 ==>
      var filled := Zeros(length - 1) + digits;
      var r := Slice(filled, -(length as int), |filled|);
      && r == filled[|digits| - 1..]
      && |r| == length
      && (|digits| <= length ==> r == Zeros(length - |digits|) + digits)
      && (|digits| > length ==> r == digits[|digits| - length..])
  {
    if length > 0 {
      var filled := Zeros(length - 1) + digits;
      assert ResolveIndex(|filled|, -(length as int)) == |digits| - 1;
      var r := filled[|digits| - 1..];
      if |digits| <= length {
        assert r == Zeros(length - |digits|) + digits;
      } else {
        assert r == digits[|digits| - length..];
      }
    }
  }

  /** A padded natural number that fits reads back as the same number. */
  lemma PaddingRoundTrip(n: nat, length: nat)
    requires |Decimal(n)| <= length
    ensures IsNumeric(Padding(n, length)) && DecimalValue(Padding(n, length)) == n
  {
    LeadingZeros(length - |Decimal(n)|, Decimal(n));
    DecimalRoundTrip(n);
  }

  // -------------------------------------------------------------- camelize

  /** The characters of the class `[_.\- ]`. */
  predicate IsSeparator(c: char) { c == '_' || c == '.' || c == '-' || c == ' ' }

  predicate IsAlnum(c: char) { 'a' <= c <= 'z' || 'A' <= c <= 'Z' || IsDigit(c) }

  /** The characters of the class `\w`. */
  predicate IsWordChar(c: char) { IsAlnum(c) || c == '_' }

  function LowerChar(c: char): char
  {
    if 'A' <= c <= 'Z' then (c as int + 32) as char else c
  }

  function UpperChar(c: char): char
  {
    if 'a' <= c <= 'z' then (c as int - 32) as char else c
  }

  /** `toLowerCase()` on ASCII letters. */
  function Lower(s: string): (r: string)
    ensures |r| == |s|
    ensures forall i | 0 <= i < |s| :: r[i] == LowerChar(s[i])
  {
    seq(|s|, i requires 0 <= i < |s| => LowerChar(s[i]))
  }

  /** The length of the run of separators that starts `s`. */
  function SeparatorRun(s: string): (k: nat)
    ensures k <= |s|
    ensures forall i | 0 <= i < k :: IsSeparator(s[i])
    ensures k < |s| ==> !IsSeparator(s[k])
  {
    if s == [] || !IsSeparator(s[0]) then 0 else 1 + SeparatorRun(s[1..])
  }

  /** The position of the last `_` in `s`, if any. */
  function LastUnderscore(s: string): (p: Option<nat>)
    ensures p.Some? ==> p.value < |s| && s[p.value] == '_'
    ensures p.Some? ==> forall q | p.value < q < |s| :: s[q] != '_'
    ensures p.None? ==> forall q | 0 <= q < |s| :: s[q] != '_'
  {
    if s == [] then None
    else if s[|s| - 1] == '_' then Some(|s| - 1)
    else LastUnderscore(s[..|s| - 1])
  }

  /**
   * One position of the scan `s.replace(/[_.\- ]+(\w|$)/g, (m, p1) => p1.toUpperCase())`
   * makes at the start of `s`: the text it emits and how many characters it
   * consumes. A character that starts no match is copied. A separator run
   * followed by a word character becomes that character upper-cased; a run
   * reaching the end of the string matches `$` and disappears; a run followed
   * by any other character backtracks to its last `_` (itself a word
   * character), which replaces the shortened run by `_`, and without such a
   * `_` there is no match here.
   */
  function CamelStep(s: string): (r: (string, nat))
    requires s != []
    ensures 1 <= r.1 <= |s|
  {
    if !IsSeparator(s[0]) then ([s[0]], 1)
    else
      var run := SeparatorRun(s);
      if run == |s| then ([], |s|)
      else if IsWordChar(s[run]) then ([UpperChar(s[run])], run + 1)
      else
        var last := LastUnderscore(s[1..run]);
        if last.Some? then ("_", last.value + 2) else ([s[0]], 1)
  }

  /** The whole global replacement, step after step from the start of `s`. */
  function CamelTail(s: string): string
    decreases |s|
  {
    if s == [] then []
    else
      var step := CamelStep(s);
      step.0 + CamelTail(s[step.1..])
  }

  /** `camelize(content)`: strip the leading separators, lower-case, then join the words. */
  function Camelize(content: string): (r: string)
    ensures r == [] || !IsSeparator(r[0])
  {
    var trimmed := content[SeparatorRun(content)..];
    var r := CamelTail(Lower(trimmed));
    assert trimmed != [] ==> r[0] == LowerChar(trimmed[0]);
    r
  }

  /** A string without separators is its own camel form. */
  lemma {:induction false} CamelTailPlain(s: string)
    requires forall i | 0 <= i < |s| :: !IsSeparator(s[i])
    ensures CamelTail(s) == s
  {
    if s != [] {
      CamelTailPlain(s[1..]);
    }
  }

  /** A run of separators alone vanishes. */
  lemma CamelTailSeparators(s: string)
    requires forall i | 0 <= i < |s| :: IsSeparator(s[i])
    ensures CamelTail(s) == []
  {
    if s != [] {
      assert SeparatorRun(s) == |s|;
    }
  }

  /** A step taken at a string that does not end inside a separator run stays within it. */
  lemma CamelStepAppend(t: string, u: string)
    requires t != [] && !IsSeparator(t[|t| - 1])
    ensures CamelStep(t + u) == CamelStep(t) && CamelStep(t).1 <= |t|
  {
    var s := t + u;
    assert s[0] == t[0];
    if IsSeparator(t[0]) {
      var run := SeparatorRun(t);
      SeparatorRunPrefix(t, u);
      assert s[run] == t[run];
      assert s[1..run] == t[1..run];
    }
  }

  /** The replacement works piecewise across a boundary that is not inside a separator run. */
  lemma {:induction false} CamelTailAppend(t: string, u: string)
    requires t == [] || !IsSeparator(t[|t| - 1])
    ensures CamelTail(t + u) == CamelTail(t) + CamelTail(u)
    decreases |t|
  {
    if t == [] {
      assert t + u == u;
    } else {
      var step := CamelStep(t);
      var rest := t[step.1..];
      CamelTailFirstStep(t, u);
      CamelTailAppend(rest, u);
      ConcatAssoc(step.0, CamelTail(rest), CamelTail(u));
    }
  }

  /** Concatenation is associative. */
  lemma ConcatAssoc<T>(a: seq<T>, b: seq<T>, c: seq<T>)
    ensures a + (b + c) == (a + b) + c
  {}

  /** A prefix one element longer is the prefix followed by that element. */
  lemma PrefixStep<T>(s: seq<T>, i: nat)
    requires i < |s|
    ensures s[..i + 1] == s[..i] + [s[i]]
  {}

  /** The first step of the replacement on `t + u` is the first step on `t`. */
  lemma CamelTailFirstStep(t: string, u: string)
    requires t != [] && !IsSeparator(t[|t| - 1])
    ensures var step := CamelStep(t);
      var rest := t[step.1..];
      && CamelTail(t + u) == step.0 + CamelTail(rest + u)
      && CamelTail(t) == step.0 + CamelTail(rest)
      && (rest == [] || !IsSeparator(rest[|rest| - 1]))
  {
    CamelStepAppend(t, u);
    var step := CamelStep(t);
    var rest := t[step.1..];
    assert (t + u)[step.1..] == rest + u;
    assert rest != [] ==> rest[|rest| - 1] == t[|t| - 1];
  }

  lemma {:induction false} SeparatorRunPrefix(t: string, u: string)
    requires SeparatorRun(t) < |t|
    ensures SeparatorRun(t + u) == SeparatorRun(t)
  {
    if IsSeparator(t[0]) {
      assert (t + u)[1..] == t[1..] + u;
      SeparatorRunPrefix(t[1..], u);
    }
  }

  /** A trailing separator run is dropped: appending one changes nothing. */
  lemma {:induction false} CamelTailTrailingRun(s: string, run: string)
    requires forall i | 0 <= i < |run| :: IsSeparator(run[i])
    ensures CamelTail(s + run) == CamelTail(s)
    decreases |s|
  {
    if s != [] && IsSeparator(s[|s| - 1]) {
      var init := s[..|s| - 1];
      var last := [s[|s| - 1]];
      assert s + run == init + (last + run);
      assert s == init + last;
      CamelTailTrailingRun(init, last + run);
      CamelTailTrailingRun(init, last);
    } else {
      CamelTailAppend(s, run);
      CamelTailSeparators(run);
    }
  }

  /** `camelize` ignores a trailing run of separators. */
  lemma CamelizeTrailingRun(content: string, run: string)
    requires forall i | 0 <= i < |run| :: IsSeparator(run[i])
    ensures Camelize(content + run) == Camelize(content)
  {
    var k := SeparatorRun(content);
    if k == |content| {
      AllSeparators(content + run);
      assert SeparatorRun(content + run) == |content + run|;
    } else {
      SeparatorRunPrefix(content, run);
      var trimmed := content[k..];
      assert (content + run)[k..] == trimmed + run;
      assert Lower(trimmed + run) == Lower(trimmed) + run;
      CamelTailTrailingRun(Lower(trimmed), run);
    }
  }

  lemma {:induction false} AllSeparators(s: string)
    requires forall i | 0 <= i < |s| :: IsSeparator(s[i])
    ensures SeparatorRun(s) == |s|
  {
    if s != [] {
      AllSeparators(s[1..]);
    }
  }

  // ------------------------------------------------------------ kebab names

  /** A word of a kebab-case name: non-empty, free of separators, starting with a letter or digit. */
  predicate IsKebabWord(w: string)
  {
    |w| > 0 && IsAlnum(w[0]) && forall i | 0 <= i < |w| :: !IsSeparator(w[i])
  }

  /** Each word preceded by a dash: `-w1-w2...`. */
  function DashWords(words: seq<string>): string
  {
    if words == [] then [] else "-" + words[0] + DashWords(words[1..])
  }

  /** Each word lower-cased with its first letter upper-cased, concatenated. */
  function CapitalizedWords(words: seq<string>): string
    requires forall k | 0 <= k < |words| :: IsKebabWord(words[k])
  {
    if words == [] then []
    else
      assert IsKebabWord(words[0]);
      var w := Lower(words[0]);
      [UpperChar(w[0])] + w[1..] + CapitalizedWords(words[1..])
  }

  /** A dash before a lower-case word capitalises the word. */
  lemma CamelTailDash(w: string, rest: string)
    requires IsKebabWord(w)
    ensures CamelTail("-" + w + rest) == [UpperChar(w[0])] + CamelTail(w[1..] + rest)
  {
    var s := "-" + w + rest;
    assert s[1..][0] == w[0];
    assert SeparatorRun(s[1..]) == 0;
    assert CamelStep(s) == ([UpperChar(w[0])], 2);
    assert s[2..] == w[1..] + rest;
  }

  lemma LowerKebabWord(w: string)
    requires IsKebabWord(w)
    ensures IsKebabWord(Lower(w))
  {}

  lemma {:induction false} CamelTailDashWords(words: seq<string>)
    requires forall k | 0 <= k < |words| :: IsKebabWord(words[k])
    ensures CamelTail(Lower(DashWords(words))) == CapitalizedWords(words)
  {
    if words != [] {
      assert IsKebabWord(words[0]);
      var w := Lower(words[0]);
      LowerKebabWord(words[0]);
      var rest := Lower(DashWords(words[1..]));
      LowerDashWords(words);
      CamelTailDash(w, rest);
      CamelTailAppend(w[1..], rest);
      CamelTailPlain(w[1..]);
      CamelTailDashWords(words[1..]);
      ConcatAssoc([UpperChar(w[0])], w[1..], CapitalizedWords(words[1..]));
    }
  }

  /** Lower-casing the dashed words lower-cases the first word and the rest apart. */
  lemma LowerDashWords(words: seq<string>)
    requires words != []
    ensures Lower(DashWords(words)) == "-" + Lower(words[0]) + Lower(DashWords(words[1..]))
  {
    LowerAppend("-" + words[0], DashWords(words[1..]));
    LowerAppend("-", words[0]);
    assert Lower("-") == "-";
  }

  lemma LowerAppend(a: string, b: string)
    ensures Lower(a + b) == Lower(a) + Lower(b)
  {}

  /**
   * The purpose of `camelize`: a kebab-case name `w0-w1-...-wn` becomes
   * `w0` lower-cased followed by every later word capitalised.
   */
  lemma KebabToCamel(first: string, words: seq<string>)
    requires IsKebabWord(first)
    requires forall k | 0 <= k < |words| :: IsKebabWord(words[k])
    ensures Camelize(first + DashWords(words)) == Lower(first) + CapitalizedWords(words)
  {
    var s := first + DashWords(words);
    assert s[0] == first[0];
    assert SeparatorRun(s) == 0;
    assert s[0..] == s;
    var lf := Lower(first);
    var ld := Lower(DashWords(words));
    LowerAppend(first, DashWords(words));
    LowerKebabWord(first);
    assert !IsSeparator(lf[|lf| - 1]);
    CamelTailAppend(lf, ld);
    CamelTailPlain(lf);
    CamelTailDashWords(words);
  }

  /** `list-max-height` becomes `listMaxHeight`. */
  lemma CamelizeListMaxHeight()
    ensures Camelize("list-max-height") == "listMaxHeight"
  {
    var name := "list" + DashWords(["max", "height"]);
    ListMaxHeightWords();
    KebabToCamel("list", ["max", "height"]);
    assert Camelize(name) == "listMaxHeight";
    assert name == "list-max-height";
  }

  lemma ListMaxHeightWords()
    ensures IsKebabWord("list") && IsKebabWord("max") && IsKebabWord("height")
    ensures DashWords(["max", "height"]) == "-max-height"
    ensures Lower("list") == "list"
    ensures CapitalizedWords(["max", "height"]) == "MaxHeight"
  {
    LowerOfLower("list");
    LowerOfLower("max");
    LowerOfLower("height");
    DashWordsMaxHeight();
    CapitalizedMaxHeight();
  }

  /** A string without capital letters is its own lower case. */
  lemma LowerOfLower(s: string)
    requires forall i | 0 <= i < |s| :: !('A' <= s[i] <= 'Z')
    ensures Lower(s) == s
  {}

  lemma DashWordsMaxHeight()
    ensures DashWords(["max", "height"]) == "-max-height"
  {
    var words := ["max", "height"];
    assert words[1..] == ["height"];
    assert DashWords(["height"]) == "-height" by {
      assert ["height"][1..] == [];
    }
  }

  lemma CapitalizedMaxHeight()
    requires Lower("max") == "max" && Lower("height") == "height"
    ensures IsKebabWord("max") && IsKebabWord("height")
    ensures CapitalizedWords(["max", "height"]) == "MaxHeight"
  {
    var words := ["max", "height"];
    assert IsKebabWord("max") && IsKebabWord("height");
    assert words[1..] == ["height"];
    assert CapitalizedWords(["height"]) == "Height" by {
      assert ["height"][1..] == [];
    }
  }

  // ------------------------------------------------------------- comparator

  /** `asc` as `compare` normalises it: 1 when undefined or truthy, -1 when falsy. */
  function AscFactor(asc: Option<bool>): int
  {
    if asc == Some(false) then -1 else 1
  }

  /**
   * The comparator `compare(asc, callback)` returns, applied to the two keys
   * the callback extracted: numeric order scaled by `asc` when both keys are
   * numbers, otherwise the locale collation `collate`, which ignores `asc`.
   */
  function Compare(asc: Option<bool>, value1: string, value2: string, collate: (string, string) -> int): (r: int)
    ensures !(IsNumeric(value1) && IsNumeric(value2)) ==> r == collate(value1, value2)
    ensures IsNumeric(value1) && IsNumeric(value2) ==>
      && (r == 0 <==> DecimalValue(value1) == DecimalValue(value2))
      && (r == AscFactor(asc) <==> DecimalValue(value1) > DecimalValue(value2))
      && (r == -AscFactor(asc) <==> DecimalValue(value1) < DecimalValue(value2))
  {
    if !IsNumeric(value1) || !IsNumeric(value2) then
      collate(value1, value2)
    else
      var number1 := DecimalValue(value1);
      var number2 := DecimalValue(value2);
      if number1 < number2 then AscFactor(asc) * -1
      else if number1 > number2 then AscFactor(asc) * 1
      else 0
  }

  /** For numeric keys, swapping the arguments negates the result. */
  lemma CompareAntisymmetric(asc: Option<bool>, value1: string, value2: string, collate: (string, string) -> int)
    requires IsNumeric(value1) && IsNumeric(value2)
    ensures Compare(asc, value1, value2, collate) == -Compare(asc, value2, value1, collate)
  {}

  /** For numeric keys, descending order is ascending order reversed. */
  lemma CompareDescending(value1: string, value2: string, collate: (string, string) -> int)
    requires IsNumeric(value1) && IsNumeric(value2)
    ensures Compare(Some(false), value1, value2, collate) == -Compare(Some(true), value1, value2, collate)
    ensures Compare(None, value1, value2, collate) == Compare(Some(true), value1, value2, collate)
  {}

  /** Zero-padded numbers of one width compare as the numbers they stand for. */
  lemma ComparePadded(a: nat, b: nat, length: nat, collate: (string, string) -> int)
    requires |Decimal(a)| <= length && |Decimal(b)| <= length
    ensures Compare(Some(true), Padding(a, length), Padding(b, length), collate) ==
      (if a < b then -1 else if a > b then 1 else 0)
  {
    PaddingRoundTrip(a, length);
    PaddingRoundTrip(b, length);
  }
}
