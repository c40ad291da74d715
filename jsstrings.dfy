/**
 * The pieces of the JavaScript string library the generators rely on:
 * `String.prototype.split` with a one-character separator, the regular
 * expression class `\s`, and `replace(/\s/g, "")`.
 */
module JsStrings {

  /** `s.split(sep)`: the maximal runs between occurrences of `sep`; never empty. */
  function Split(s: string, sep: char): (r: seq<string>)
    ensures |r| >= 1
    ensures forall i :: 0 <= i < |r| ==> sep !in r[i]
    ensures |r| == 1 <==> sep !in s
    decreases |s|
  {
    if |s| == 0 then [""]
    else
      var rest := Split(s[1..], sep);
      if s[0] == sep then [""] + rest
      else [[s[0]] + rest[0]] + rest[1..]
  }

  /** `parts.join(sep)`: the inverse of `Split`. */
  function Join(parts: seq<string>, sep: char): (r: string)
    requires |parts| >= 1
    decreases |parts|
  {
    if |parts| == 1 then parts[0] else parts[0] + [sep] + Join(parts[1..], sep)
  }

  /** Gluing a character onto the first part glues it onto the joined string. */
  lemma JoinGlue(c: char, parts: seq<string>, sep: char)
    requires |parts| >= 1
    ensures Join([[c] + parts[0]] + parts[1..], sep) == [c] + Join(parts, sep)
  {
    var glued := [[c] + parts[0]] + parts[1..];
    assert glued[0] == [c] + parts[0] && glued[1..] == parts[1..];
    if |parts| > 1 {
      assert Join(glued, sep) == [c] + parts[0] + [sep] + Join(parts[1..], sep);
    }
  }

  /** Splitting and joining again gives back the original string. */
  lemma {:induction false} JoinSplit(s: string, sep: char)
    ensures Join(Split(s, sep), sep) == s
    decreases |s|
  {
    if |s| > 0 {
      JoinSplit(s[1..], sep);
      var rest := Split(s[1..], sep);
      if s[0] != sep {
        JoinGlue(s[0], rest, sep);
      } else {
        assert Split(s, sep) == [""] + rest;
        assert ([""] + rest)[1..] == rest;
      }
      assert s == [s[0]] + s[1..];
    }
  }

  /** A separator-free prefix is glued onto the first part of what follows it. */
  lemma {:induction false} SplitPrefix(a: string, rest: string, sep: char)
    requires sep !in a
    ensures Split(a + rest, sep) == [a + Split(rest, sep)[0]] + Split(rest, sep)[1..]
    decreases |a|
  {
    if |a| > 0 {
      SplitPrefix(a[1..], rest, sep);
      assert (a + rest)[1..] == a[1..] + rest;
      assert [a[0]] + (a[1..] + Split(rest, sep)[0]) == a + Split(rest, sep)[0];
    } else {
      var r := Split(rest, sep);
      assert a + rest == rest && a + r[0] == r[0];
      assert r == [r[0]] + r[1..];
    }
  }

  /** A leading separator splits off an empty first part. */
  lemma SplitAfterSep(tail: string, sep: char)
    ensures Split([sep] + tail, sep) == [""] + Split(tail, sep)
  {
    assert ([sep] + tail)[1..] == tail;
  }

  /** Joining separator-free parts and splitting again gives back the parts. */
  lemma {:induction false} SplitJoin(parts: seq<string>, sep: char)
    requires |parts| >= 1
    requires forall i :: 0 <= i < |parts| ==> sep !in parts[i]
    ensures Split(Join(parts, sep), sep) == parts
    decreases |parts|
  {
    if |parts| == 1 {
      SplitPrefix(parts[0], "", sep);
      assert parts[0] + "" == parts[0];
    } else {
      var tail := Join(parts[1..], sep);
      assert forall i :: 0 <= i < |parts[1..]| ==> sep !in parts[1..][i];
      SplitJoin(parts[1..], sep);
      SplitAfterSep(tail, sep);
      SplitPrefix(parts[0], [sep] + tail, sep);
      assert Join(parts, sep) == parts[0] + ([sep] + tail);
      assert parts[0] + "" == parts[0];
      assert parts == [parts[0]] + parts[1..];
    }
  }

  /** The join of two or more separator-free parts: the first part, a separator, the join of the rest. */
  lemma JoinTail(parts: seq<string>, sep: char)
    requires |parts| >= 2
    requires forall i :: 0 <= i < |parts| ==> sep !in parts[i]
    ensures var j := Join(parts, sep);
      && |parts[0]| < |j| && j[..|parts[0]|] == parts[0] && j[|parts[0]|] == sep
      && Split(j[|parts[0]| + 1..], sep) == parts[1..]
  {
    var j := Join(parts, sep);
    var tail := Join(parts[1..], sep);
    assert j == parts[0] + [sep] + tail;
    assert j[|parts[0]| + 1..] == tail;
    assert forall i :: 0 <= i < |parts[1..]| ==> sep !in parts[1..][i];
    SplitJoin(parts[1..], sep);
  }

  /** The first part is the text before the first separator, or all of `s` if there is none. */
  lemma HeadOfSplit(s: string, sep: char)
    ensures var r := Split(s, sep);
      && |r[0]| <= |s| && r[0] == s[..|r[0]|]
      && (|r| == 1 ==> r[0] == s)
      && (|r| >= 2 ==> s[|r[0]|] == sep && Split(s[|r[0]| + 1..], sep) == r[1..])
  {
    var r := Split(s, sep);
    JoinSplit(s, sep);
    if |r| >= 2 {
      JoinTail(r, sep);
    }
  }

  /** The characters JavaScript's `\s` matches (WhiteSpace and LineTerminator of ECMAScript). */
  predicate IsJsWhitespace(c: char): (r: bool)
    ensures IsLineTerminator(c) ==> r
    ensures c == ' ' || c == '\t' ==> r
    ensures 'A' <= c <= 'Z' || 'a' <= c <= 'z' || '0' <= c <= '9' ==> !r
  {
    || c == '\t' || c == '\n' || c == '\U{000B}' || c == '\U{000C}' || c == '\r' || c == ' '
    || c == '\U{00A0}' || c == '\U{1680}' || ('\U{2000}' <= c <= '\U{200A}')
    || c == '\U{2028}' || c == '\U{2029}' || c == '\U{202F}' || c == '\U{205F}'
    || c == '\U{3000}' || c == '\U{FEFF}'
  }

  /** The line terminators, which the regular-expression `.` does not match. */
  predicate IsLineTerminator(c: char)
  {
    c == '\n' || c == '\r' || c == '\U{2028}' || c == '\U{2029}'
  }

  /** `s.replace(/\s/g, "")`: `s` with every whitespace character removed. */
  function StripWhitespace(s: string): (r: string)
    ensures forall i :: 0 <= i < |r| ==> !IsJsWhitespace(r[i])
    ensures forall c :: c in r ==> c in s
    ensures |r| <= |s|
  {
    if |s| == 0 then ""
    else (if IsJsWhitespace(s[0]) then "" else [s[0]]) + StripWhitespace(s[1..])
  }

  /** Stripping distributes over concatenation, so it keeps the other characters in order. */
  lemma {:induction false} StripConcat(a: string, b: string)
    ensures StripWhitespace(a + b) == StripWhitespace(a) + StripWhitespace(b)
    decreases |a|
  {
    if |a| > 0 {
      StripConcat(a[1..], b);
      assert (a + b)[1..] == a[1..] + b;
    } else {
      assert a + b == b;
    }
  }

  /** A string without whitespace is left as it is. */
  lemma {:induction false} StripKeeps(s: string)
    requires forall i :: 0 <= i < |s| ==> !IsJsWhitespace(s[i])
    ensures StripWhitespace(s) == s
    decreases |s|
  {
    if |s| > 0 {
      StripKeeps(s[1..]);
      assert s == [s[0]] + s[1..];
    }
  }

  /** Stripping twice is stripping once. */
  lemma StripIdempotent(s: string)
    ensures StripWhitespace(StripWhitespace(s)) == StripWhitespace(s)
  {
    StripKeeps(StripWhitespace(s));
  }

  /** A string made only of whitespace strips to nothing. */
  lemma {:induction false} StripAllWhitespace(s: string)
    requires forall i :: 0 <= i < |s| ==> IsJsWhitespace(s[i])
    ensures StripWhitespace(s) == ""
    decreases |s|
  {
    if |s| > 0 {
      StripAllWhitespace(s[1..]);
    }
  }
}
