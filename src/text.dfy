/**
 * The handful of java.lang.String and java.util.regex operations the chat
 * services rely on, written over `seq<char>`.
 *
 *  - `\s` of a Java regex (without UNICODE_CHARACTER_CLASS) is the six
 *    characters space, tab, line feed, vertical tab, form feed, carriage return;
 *  - `\p{Punct}` is the 32 ASCII punctuation characters;
 *  - `String.trim()` strips every character whose code is at most U+0020 from
 *    both ends;
 *  - `\d` is an ASCII digit.
 */
module Text {
  import opened Wrappers

  /** One character of the regex class `\s`. */
  predicate IsJavaSpace(c: char)
  {
    c == ' ' || c == '\t' || c == '\n' || c == '\r' || c as int == 11 || c as int == 12
  }

  /** One character of the regex class `\p{Punct}`: !"#$%&'()*+,-./:;<=>?@[\]^_`{|}~ */
  predicate IsAsciiPunct(c: char)
  {
    ('!' <= c <= '/') || (':' <= c <= '@') || ('[' <= c <= '`') || ('{' <= c <= '~')
  }

  /** One character of the word separator class `[\s\p{Punct}]`. */
  predicate IsWordSeparator(c: char)
  {
    IsJavaSpace(c) || IsAsciiPunct(c)
  }

  predicate IsDigit(c: char)
  {
    '0' <= c <= '9'
  }

  /** `s.matches("\\d+")`: one or more ASCII digits and nothing else. */
  predicate AllDigits(s: seq<char>)
  {
    |s| > 0 && forall i :: 0 <= i < |s| ==> IsDigit(s[i])
  }

  function LowerChar(c: char): (r: char)
    ensures 'A' <= c <= 'Z' ==> 'a' <= r <= 'z'
    ensures !('A' <= c <= 'Z') ==> r == c
  {
    if 'A' <= c <= 'Z' then (c as int + 32) as char else c
  }

  /** `toLowerCase()` restricted to ASCII letters. */
  function ToLower(s: seq<char>): (r: seq<char>)
    ensures |r| == |s|
    ensures forall i :: 0 <= i < |s| ==> r[i] == LowerChar(s[i])
  {
    if s == [] then [] else [LowerChar(s[0])] + ToLower(s[1..])
  }

  predicate IsLowerCase(s: seq<char>)
  {
    forall c :: c in s ==> !('A' <= c <= 'Z')
  }

  /** A character `trim()` removes from either end. */
  predicate IsTrimmable(c: char)
  {
    c <= ' '
  }

  /** The number of trimmable characters at the start of `s`. */
  function LeadingTrimmable(s: seq<char>): (n: nat)
    ensures n <= |s|
    ensures forall i :: 0 <= i < n ==> IsTrimmable(s[i])
    ensures n < |s| ==> !IsTrimmable(s[n])
  {
    if s != [] && IsTrimmable(s[0]) then 1 + LeadingTrimmable(s[1..]) else 0
  }

  /** The number of trimmable characters at the end of `s`. */
  function TrailingTrimmable(s: seq<char>): (n: nat)
    ensures n <= |s|
    ensures forall i :: |s| - n <= i < |s| ==> IsTrimmable(s[i])
    ensures n < |s| ==> !IsTrimmable(s[|s| - 1 - n])
  {
    if s != [] && IsTrimmable(s[|s| - 1]) then 1 + TrailingTrimmable(s[..|s| - 1]) else 0
  }

  /** `String.trim()`. */
  function Trim(s: seq<char>): seq<char>
  {
    var l := s[LeadingTrimmable(s)..];
    l[..|l| - TrailingTrimmable(l)]
  }

  /** `s.trim().isEmpty()`. */
  predicate IsBlank(s: seq<char>)
  {
    Trim(s) == []
  }

  lemma TrimEnds(s: seq<char>)
    ensures Trim(s) == [] || (!IsTrimmable(Trim(s)[0]) && !IsTrimmable(Trim(s)[|Trim(s)| - 1]))
  {
    var l := s[LeadingTrimmable(s)..];
    var r := l[..|l| - TrailingTrimmable(l)];
    if r != [] {
      assert r[0] == l[0];
    }
  }

  /** `trim()` only removes characters, so every character it keeps was in `s`. */
  lemma TrimKeeps(s: seq<char>)
    ensures forall c :: c in Trim(s) ==> c in s
  {
    var k := LeadingTrimmable(s);
    var l := s[k..];
    var r := l[..|l| - TrailingTrimmable(l)];
    forall c | c in r ensures c in s {
      var i :| 0 <= i < |r| && r[i] == c;
      assert s[k + i] == c;
    }
  }

  lemma ToLowerIsLower(s: seq<char>)
    ensures IsLowerCase(ToLower(s))
  {
    var r := ToLower(s);
    forall c | c in r ensures !('A' <= c <= 'Z') {
      var i :| 0 <= i < |r| && r[i] == c;
    }
  }

  lemma TrimUntouched(s: seq<char>)
    requires s == [] || (!IsTrimmable(s[0]) && !IsTrimmable(s[|s| - 1]))
    ensures Trim(s) == s
  {
  }

  /** `stream().limit(n)` / `subList(0, min(size, n))`: the first `n` elements, or all of them. */
  function Take<T>(s: seq<T>, n: nat): (r: seq<T>)
    ensures |r| <= n && |r| <= |s|
    ensures r == s[..|r|]
    ensures |s| <= n ==> r == s
    ensures n <= |s| ==> |r| == n
  {
    if n <= |s| then s[..n] else s
  }

  /** `map(String::trim)`. */
  function TrimAll(fs: seq<seq<char>>): (r: seq<seq<char>>)
    ensures |r| == |fs|
    ensures forall i :: 0 <= i < |fs| ==> r[i] == Trim(fs[i])
  {
    if fs == [] then [] else [Trim(fs[0])] + TrimAll(fs[1..])
  }

  /** `filter(w -> w.length() >= n)`. */
  function AtLeast(fs: seq<seq<char>>, n: nat): (r: seq<seq<char>>)
    ensures |r| <= |fs|
    ensures forall w :: w in r <==> w in fs && |w| >= n
  {
    if fs == [] then [] else (if |fs[0]| >= n then [fs[0]] else []) + AtLeast(fs[1..], n)
  }

  /** A list without separator-free-joined ambiguity: `c` occurs in no part and not in `sep`. */
  lemma {:induction false} JoinAvoids(parts: seq<seq<char>>, sep: seq<char>, c: char)
    requires c !in sep && forall p :: p in parts ==> c !in p
    ensures c !in Join(parts, sep)
  {
    if |parts| > 1 {
      JoinAvoids(parts[1..], sep, c);
    }
  }

  /** The number of occurrences of `x` in `s`. */
  function Occurrences<T(==)>(s: seq<T>, x: T): (n: nat)
    ensures n <= |s|
    ensures n == 0 <==> x !in s
  {
    if s == [] then 0 else (if s[0] == x then 1 else 0) + Occurrences(s[1..], x)
  }

  /** What `split` cuts at: one given character, or the class `[\s\p{Punct}]`. */
  datatype Separator = Char(c: char) | WordBoundary

  predicate IsSeparator(sep: Separator, x: char)
  {
    match sep
    case Char(c) => x == c
    case WordBoundary => IsWordSeparator(x)
  }

  /**
   * Every field between separators, as Java's `String.split` would produce
   * them before it drops trailing empty strings: `k` separators give `k + 1`
   * fields.
   */
  function Split(s: seq<char>, sep: Separator): (r: seq<seq<char>>)
    ensures |r| >= 1
    ensures |r| == 1 + |s| - CountNon(s, sep)
  {
    if s == [] then [[]]
    else
      var rest := Split(s[1..], sep);
      if IsSeparator(sep, s[0]) then [[]] + rest else [[s[0]] + rest[0]] + rest[1..]
  }

  /** The number of characters of `s` that are not separators. */
  function CountNon(s: seq<char>, sep: Separator): (n: nat)
    ensures n <= |s|
  {
    if s == [] then 0 else (if IsSeparator(sep, s[0]) then 0 else 1) + CountNon(s[1..], sep)
  }

  lemma {:induction false} SplitFieldsHaveNoSeparator(s: seq<char>, sep: Separator)
    ensures forall f, c :: f in Split(s, sep) && c in f ==> !IsSeparator(sep, c)
  {
    if s != [] {
      SplitFieldsHaveNoSeparator(s[1..], sep);
    }
  }

  /** The non-empty strings of `fs`, in order. */
  function NonEmpty(fs: seq<seq<char>>): (r: seq<seq<char>>)
    ensures |r| <= |fs|
    ensures forall w :: w in r <==> w in fs && w != []
  {
    if fs == [] then [] else (if fs[0] == [] then [] else [fs[0]]) + NonEmpty(fs[1..])
  }

  /** Dropping empty strings from a list that has none changes nothing. */
  lemma {:induction false} NonEmptyKeepsAll(fs: seq<seq<char>>)
    requires forall i :: 0 <= i < |fs| ==> fs[i] != []
    ensures NonEmpty(fs) == fs
  {
    if fs != [] {
      NonEmptyKeepsAll(fs[1..]);
      assert [fs[0]] + fs[1..] == fs;
    }
  }

  /**
   * `Pattern.compile("[\\s\\p{Punct}]+").split(s)` with the empty strings
   * removed: a run of separators yields one split in Java and several empty
   * fields here, and every caller discards empty and one-character tokens.
   */
  function Words(s: seq<char>): seq<seq<char>>
  {
    NonEmpty(Split(s, WordBoundary))
  }

  /** `WORD_PATTERN.split(content.toLowerCase().trim())`, the split both analysers use. */
  function MessageWords(content: seq<char>): seq<seq<char>>
  {
    Words(Trim(ToLower(content)))
  }

  lemma WordsHaveNoSeparator(s: seq<char>)
    ensures forall w, c :: w in Words(s) && c in w ==> !IsWordSeparator(c)
  {
    SplitFieldsHaveNoSeparator(s, WordBoundary);
  }

  lemma WordsOfLowerAreLower(s: seq<char>)
    requires IsLowerCase(s)
    ensures forall w :: w in Words(s) ==> IsLowerCase(w)
  {
    forall w | w in Words(s) ensures IsLowerCase(w) {
      WordInSplitIsSlice(s, WordBoundary, w);
    }
  }

  lemma {:induction false} WordInSplitIsSlice(s: seq<char>, sep: Separator, w: seq<char>)
    requires w in Split(s, sep)
    ensures forall c :: c in w ==> c in s
  {
    if s != [] {
      var rest := Split(s[1..], sep);
      if IsSeparator(sep, s[0]) {
        if w in rest { WordInSplitIsSlice(s[1..], sep, w); }
      } else if w == [s[0]] + rest[0] {
        WordInSplitIsSlice(s[1..], sep, rest[0]);
      } else {
        assert w in rest[1..];
        WordInSplitIsSlice(s[1..], sep, w);
      }
    }
  }

  /** The parts joined with `sep` between neighbours (`Collectors.joining`). */
  function Join(parts: seq<seq<char>>, sep: seq<char>): seq<char>
  {
    if parts == [] then []
    else if |parts| == 1 then parts[0]
    else parts[0] + sep + Join(parts[1..], sep)
  }

  /** Splitting a joined list on a character none of the parts contains gives the parts back. */
  lemma {:induction false} SplitJoin(parts: seq<seq<char>>, c: char)
    requires |parts| >= 1
    requires forall p :: p in parts ==> c !in p
    ensures Split(Join(parts, [c]), Char(c)) == parts
  {
    var sep := Char(c);
    if |parts| == 1 {
      SplitNoSeparator(parts[0], sep);
    } else {
      SplitJoin(parts[1..], c);
      SplitConcat(parts[0], c, Join(parts[1..], [c]));
      SplitNoSeparator(parts[0], sep);
      assert Join(parts, [c]) == parts[0] + [c] + Join(parts[1..], [c]);
      assert parts == [parts[0]] + parts[1..];
    }
  }

  lemma {:induction false} SplitNoSeparator(s: seq<char>, sep: Separator)
    requires forall x :: x in s ==> !IsSeparator(sep, x)
    ensures Split(s, sep) == [s]
  {
    if s != [] {
      SplitNoSeparator(s[1..], sep);
      assert [s[0]] + s[1..] == s;
    }
  }

  lemma {:induction false} SplitConcat(a: seq<char>, c: char, b: seq<char>)
    requires c !in a
    ensures Split(a + [c] + b, Char(c)) == [a] + Split(b, Char(c))
  {
    var sep := Char(c);
    if a == [] {
      assert a + [c] + b == [c] + b;
      assert ([c] + b)[1..] == b;
    } else {
      SplitConcat(a[1..], c, b);
      assert (a + [c] + b)[1..] == a[1..] + [c] + b;
      assert [a[0]] + a[1..] == a;
    }
  }

  /** `s.replace(String.valueOf(c), "")`: every `c` removed. */
  function Remove(s: seq<char>, c: char): (r: seq<char>)
    ensures forall x :: x in r <==> x in s && x != c
    ensures |r| <= |s|
  {
    if s == [] then [] else (if s[0] == c then [] else [s[0]]) + Remove(s[1..], c)
  }

  lemma {:induction false} RemoveConcat(a: seq<char>, b: seq<char>, c: char)
    ensures Remove(a + b, c) == Remove(a, c) + Remove(b, c)
  {
    if a != [] {
      RemoveConcat(a[1..], b, c);
      assert (a + b)[1..] == a[1..] + b;
    } else {
      assert a + b == b;
    }
  }

  lemma {:induction false} RemoveAbsent(s: seq<char>, c: char)
    requires c !in s
    ensures Remove(s, c) == s
  {
    if s != [] {
      RemoveAbsent(s[1..], c);
      assert [s[0]] + s[1..] == s;
    }
  }

  predicate StartsWith(s: seq<char>, prefix: seq<char>)
  {
    |prefix| <= |s| && s[..|prefix|] == prefix
  }

  predicate OccursAt(s: seq<char>, pat: seq<char>, i: int)
  {
    0 <= i && i + |pat| <= |s| && s[i..i + |pat|] == pat
  }

  /** `s.contains(pat)`. */
  predicate Contains(s: seq<char>, pat: seq<char>)
  {
    exists i :: 0 <= i <= |s| && OccursAt(s, pat, i)
  }

  /**
   * `s.indexOf(pat, from)`: the first position at or after `from` where `pat`
   * occurs, or -1.
   */
  function IndexOf(s: seq<char>, pat: seq<char>, from: nat): (r: int)
    ensures r == -1 || (OccursAt(s, pat, r) && (from <= r || pat == []))
    ensures r == -1 ==> forall i :: from <= i ==> !OccursAt(s, pat, i)
    ensures r != -1 ==> forall i :: from <= i < r ==> !OccursAt(s, pat, i)
    decreases |s| - from
  {
    if |pat| == 0 then (if from <= |s| then from else |s|)
    else if from + |pat| > |s| then -1
    else if s[from..from + |pat|] == pat then from
    else IndexOf(s, pat, from + 1)
  }

  lemma ContainsIndexOf(s: seq<char>, pat: seq<char>)
    ensures Contains(s, pat) <==> IndexOf(s, pat, 0) != -1
  {
    if IndexOf(s, pat, 0) != -1 {
      assert OccursAt(s, pat, IndexOf(s, pat, 0));
    }
  }

  /** `Long.toString(n)` / `%d`. */
  function IntToString(n: int): (r: seq<char>)
    ensures |r| >= 1
  {
    if n < 0 then "-" + NatToString(-n) else NatToString(n)
  }

  function NatToString(n: nat): (r: seq<char>)
    ensures |r| >= 1
    ensures forall i :: 0 <= i < |r| ==> IsDigit(r[i])
    decreases n
  {
    if n < 10 then [DigitChar(n)] else NatToString(n / 10) + [DigitChar(n % 10)]
  }

  function DigitChar(d: nat): (c: char)
    requires d < 10
    ensures IsDigit(c) && c as int - '0' as int == d
  {
    ('0' as int + d) as char
  }

  const MinLong: int := -0x8000_0000_0000_0000
  const MaxLong: int := 0x7FFF_FFFF_FFFF_FFFF

  /** The value of a string of ASCII digits, most significant first. */
  function DigitsValue(s: seq<char>): nat
    requires forall i :: 0 <= i < |s| ==> IsDigit(s[i])
  {
    if s == [] then 0 else assert IsDigit(s[|s| - 1]); DigitsValue(s[..|s| - 1]) * 10 + (s[|s| - 1] as int - '0' as int)
  }

  /**
   * `Long.parseLong(s)` over ASCII digits: an optional sign, at least one
   * digit, and a value within the range of a `long`; `None` where Java
   * throws `NumberFormatException`.
   */
  function ParseLong(s: seq<char>): (r: Option<int>)
    ensures r.Some? ==> MinLong <= r.value <= MaxLong
    ensures r.Some? ==> |s| > 0
  {
    if s == [] then None
    else
      var negative := s[0] == '-';
      var digits := if s[0] == '-' || s[0] == '+' then s[1..] else s;
      if !AllDigits(digits) then None
      else
        var v: int := if negative then 0 - DigitsValue(digits) as int else DigitsValue(digits);
        if MinLong <= v <= MaxLong then Some(v) else None
  }

  lemma {:induction false} DigitsOfNat(n: nat)
    ensures DigitsValue(NatToString(n)) == n
    decreases n
  {
    if n >= 10 {
      DigitsOfNat(n / 10);
      var s := NatToString(n);
      assert s[..|s| - 1] == NatToString(n / 10);
    }
  }

  /** Parsing the decimal form of a `long` gives it back. */
  lemma ParseLongOfToString(n: int)
    requires MinLong <= n <= MaxLong
    ensures ParseLong(IntToString(n)) == Some(n)
  {
    var s := IntToString(n);
    if n < 0 {
      DigitsOfNat(-n);
      assert s[1..] == NatToString(-n);
    } else {
      DigitsOfNat(n);
      assert IsDigit(s[0]);
    }
  }
}
