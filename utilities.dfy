/**
 * The three prompt validators. Each matches its input against one regular
 * expression and answers `true` or a fixed message; here each regular
 * expression is written out as the language it accepts.
 */
module Utilities {
  import opened JsStrings

  /** A validator's answer: `true`, or the message to show. */
  datatype Answer = Accept | Reject(message: string)

  const UrlMessage := "You must provide a valid URL."
  const EmailMessage := "You must provide a valid email."
  const NamespaceMessage := "Answer must not contain spaces, numeric characters or special characters."

  predicate IsAsciiLetter(c: char) { 'a' <= c <= 'z' || 'A' <= c <= 'Z' }
  predicate IsLower(c: char) { 'a' <= c <= 'z' }
  predicate IsDigit(c: char) { '0' <= c <= '9' }
  /** `\w`: letters, digits and underscore. */
  predicate IsWordChar(c: char) { IsAsciiLetter(c) || IsDigit(c) || c == '_' }

  // ---------------------------------------------------------------- namespace

  /** `[ a-zA-Z]` */
  predicate IsNamespaceChar(c: char) { c == ' ' || IsAsciiLetter(c) }

  /** The language of `^[ a-zA-Z]+$`. */
  predicate IsNamespace(s: string)
  {
    |s| > 0 && forall i :: 0 <= i < |s| ==> IsNamespaceChar(s[i])
  }

  function ValidateNamespace(input: string): (r: Answer)
    ensures r == Accept || r == Reject(NamespaceMessage)
    ensures r == Accept <==> IsNamespace(input)
  {
    if IsNamespace(input) then Accept else Reject(NamespaceMessage)
  }

  /** Empty input and any digit or other character than a letter or space is refused. */
  lemma NamespaceRejects(input: string, i: int)
    requires input == "" || (0 <= i < |input| && !IsNamespaceChar(input[i]))
    ensures ValidateNamespace(input) == Reject(NamespaceMessage)
  {
  }

  /** Accepted names are closed under concatenation, spaces included despite the message's wording. */
  lemma NamespaceConcat(a: string, b: string)
    requires ValidateNamespace(a) == Accept && ValidateNamespace(b) == Accept
    ensures ValidateNamespace(a + b) == Accept && ValidateNamespace(a + " " + b) == Accept
  {
    assert forall i :: 0 <= i < |a + b| ==> (a + b)[i] == if i < |a| then a[i] else b[i - |a|];
    assert forall i :: 0 <= i < |a + " " + b| ==>
      (a + " " + b)[i] == if i < |a| then a[i] else if i == |a| then ' ' else b[i - |a| - 1];
  }

  lemma NamespaceExamples()
    ensures ValidateNamespace("My Package") == Accept
    ensures ValidateNamespace("Pkg2") == Reject(NamespaceMessage)
    ensures ValidateNamespace("my-pkg") == Reject(NamespaceMessage)
  {
    assert "Pkg2"[3] == '2';
    assert "my-pkg"[2] == '-';
  }

  // -------------------------------------------------------------------- email

  /** `[^<>()\[\]\\.,;:\s@"]` */
  predicate IsAtomChar(c: char)
  {
    && c != '<' && c != '>' && c != '(' && c != ')' && c != '[' && c != ']' && c != '\\'
    && c != '.' && c != ',' && c != ';' && c != ':' && c != '@' && c != '"'
    && !IsJsWhitespace(c)
  }

  /** `[^<>()\[\]\\.,;:\s@"]+(\.[^<>()\[\]\\.,;:\s@"]+)*`: non-empty runs of atom characters joined by single dots. */
  predicate IsDotAtom(s: string)
  {
    var runs := Split(s, '.');
    forall k :: 0 <= k < |runs| ==> |runs[k]| > 0 && forall i :: 0 <= i < |runs[k]| ==> IsAtomChar(runs[k][i])
  }

  /** `".+"`: a double quote, at least one character other than a line terminator, a double quote. */
  predicate IsQuoted(s: string)
  {
    |s| >= 3 && s[0] == '"' && s[|s| - 1] == '"'
    && forall i :: 1 <= i < |s| - 1 ==> !IsLineTerminator(s[i])
  }

  predicate IsLocalPart(s: string) { IsDotAtom(s) || IsQuoted(s) }

  /** `\[[0-9]{1,3}\.[0-9]{1,3}\.[0-9]{1,3}\.[0-9]{1,3}]`: a bracketed dotted quad of 1-3 digit fields. */
  predicate IsAddressLiteral(s: string)
  {
    |s| >= 2 && s[0] == '[' && s[|s| - 1] == ']'
    && var fields := Split(s[1..|s| - 1], '.');
    && |fields| == 4
    && forall k :: 0 <= k < 4 ==> 1 <= |fields[k]| <= 3 && forall i :: 0 <= i < |fields[k]| ==> IsDigit(fields[k][i])
  }

  /** `[a-zA-Z\-0-9]` */
  predicate IsLabelChar(c: char) { IsAsciiLetter(c) || IsDigit(c) || c == '-' }

  /** `([a-zA-Z\-0-9]+\.)+[a-zA-Z]{2,}`: one or more dot-terminated labels, then two or more letters. */
  predicate IsHostName(s: string)
  {
    var labels := Split(s, '.');
    && |labels| >= 2
    && (forall k :: 0 <= k < |labels| - 1 ==> |labels[k]| > 0 && forall i :: 0 <= i < |labels[k]| ==> IsLabelChar(labels[k][i]))
    && var last := labels[|labels| - 1];
    && |last| >= 2 && forall i :: 0 <= i < |last| ==> IsAsciiLetter(last[i])
  }

  predicate IsDomain(s: string) { IsAddressLiteral(s) || IsHostName(s) }

  /** The language of the anchored email expression: some `@` splits the input into a local part and a domain. */
  predicate IsEmail(s: string)
  {
    exists at :: 0 <= at < |s| && s[at] == '@' && IsLocalPart(s[..at]) && IsDomain(s[at + 1..])
  }

  function ValidateEmail(input: string): (r: Answer)
    ensures r == Accept || r == Reject(EmailMessage)
    ensures r == Accept <==> IsEmail(input)
  {
    if IsEmail(input) then Accept else Reject(EmailMessage)
  }

  /** Without an `@` nothing is an email address. */
  lemma EmailNeedsAt(input: string)
    requires '@' !in input
    ensures ValidateEmail(input) == Reject(EmailMessage)
  {
  }

  /** A dot-atom local part and a host name, each free of `@`, make an address. */
  lemma {:induction false} EmailFromParts(local: string, domain: string)
    requires IsDotAtom(local) && IsHostName(domain)
    ensures ValidateEmail(local + "@" + domain) == Accept
  {
    var s := local + "@" + domain;
    assert s[..|local|] == local;
    assert s[|local| + 1..] == domain;
  }

  /** An unquoted local part never holds whitespace, so "john smith@example.com" is refused. */
  lemma {:induction false} DotAtomHasNoWhitespace(s: string, i: int)
    requires IsDotAtom(s) && 0 <= i < |s|
    ensures !IsJsWhitespace(s[i])
  {
    var runs := Split(s, '.');
    JoinSplit(s, '.');
    if s[i] != '.' {
      InSomeRun(runs, '.', i);
    }
  }

  /** A character of `Join(parts, sep)` that is not `sep` is a character of one of the parts. */
  lemma {:induction false} InSomeRun(parts: seq<string>, sep: char, i: int)
    requires |parts| >= 1 && 0 <= i < |Join(parts, sep)| && Join(parts, sep)[i] != sep
    ensures exists k, j :: 0 <= k < |parts| && 0 <= j < |parts[k]| && parts[k][j] == Join(parts, sep)[i]
    decreases |parts|
  {
    if |parts| == 1 {
      assert parts[0][i] == Join(parts, sep)[i];
    } else if i < |parts[0]| {
      assert parts[0][i] == Join(parts, sep)[i];
    } else {
      var tail := Join(parts[1..], sep);
      assert Join(parts, sep) == parts[0] + [sep] + tail;
      assert Join(parts, sep)[i] == tail[i - |parts[0]| - 1];
      InSomeRun(parts[1..], sep, i - |parts[0]| - 1);
      var k, j :| 0 <= k < |parts[1..]| && 0 <= j < |parts[1..][k]| && parts[1..][k][j] == tail[i - |parts[0]| - 1];
      assert parts[k + 1][j] == Join(parts, sep)[i];
    }
  }

  /** An `@` with a local part before it and a domain after it makes the input accepted. */
  lemma EmailAt(s: string, at: int)
    requires 0 <= at < |s| && s[at] == '@' && IsLocalPart(s[..at]) && IsDomain(s[at + 1..])
    ensures ValidateEmail(s) == Accept
  {
  }

  // The parts of the examples below are passed as parameters equal to a
  // literal, which keeps the verifier from unrolling `Split` on the literal.

  lemma ExampleComIsHostName(s: string)
    requires s == "example.com"
    ensures IsHostName(s)
  {
    var labels := ["example", "com"];
    assert labels[0] + ['.'] + labels[1] == s;
    SplitJoin(labels, '.');
  }

  /** Non-empty runs of letters joined by dots form a dot-atom. */
  lemma LetterRunsAreDotAtom(runs: seq<string>)
    requires |runs| >= 1
    requires forall k :: 0 <= k < |runs| ==> |runs[k]| > 0 && forall i :: 0 <= i < |runs[k]| ==> IsAsciiLetter(runs[k][i])
    ensures IsDotAtom(Join(runs, '.'))
  {
    SplitJoin(runs, '.');
  }

  lemma JohnSmithIsDotAtom(s: string)
    requires s == "john.smith"
    ensures IsDotAtom(s)
  {
    var runs := ["john", "smith"];
    assert Join(runs, '.') == runs[0] + ['.'] + runs[1] == s;
    LetterRunsAreDotAtom(runs);
  }

  lemma AdminIsDotAtom(s: string)
    requires s == "admin"
    ensures IsDotAtom(s)
  {
    SplitJoin([s], '.');
  }

  lemma QuadIsAddressLiteral(s: string)
    requires s == "[192.168.0.1]"
    ensures IsAddressLiteral(s)
  {
    var fields := ["192", "168", "0", "1"];
    assert fields[0] + ['.'] + (fields[1] + ['.'] + (fields[2] + ['.'] + fields[3])) == s[1..|s| - 1];
    SplitJoin(fields, '.');
  }

  lemma JohnSmithIsQuoted(s: string)
    requires s == "\"john smith\""
    ensures IsQuoted(s)
  {
    forall i | 1 <= i < |s| - 1
      ensures !IsLineTerminator(s[i])
    {
      assert IsAsciiLetter(s[i]) || s[i] == ' ';
    }
  }

  lemma EmailDotAtomExample()
    ensures ValidateEmail("john.smith@example.com") == Accept
  {
    var e := "john.smith@example.com";
    JohnSmithIsDotAtom(e[..10]);
    ExampleComIsHostName(e[11..]);
    EmailAt(e, 10);
  }

  lemma EmailAddressLiteralExample()
    ensures ValidateEmail("admin@[192.168.0.1]") == Accept
  {
    var e := "admin@[192.168.0.1]";
    AdminIsDotAtom(e[..5]);
    QuadIsAddressLiteral(e[6..]);
    EmailAt(e, 5);
  }

  lemma EmailQuotedExample()
    ensures ValidateEmail("\"john smith\"@example.com") == Accept
  {
    var e := "\"john smith\"@example.com";
    ExampleComIsHostName(e[13..]);
    JohnSmithIsQuoted(e[..12]);
    EmailAt(e, 12);
  }

  /** Every domain holds a dot, in the address literal as in the host name. */
  lemma DomainHasDot(d: string)
    requires IsDomain(d)
    ensures '.' in d
  {
    if IsAddressLiteral(d) {
      var inner := d[1..|d| - 1];
      assert '.' in inner;
      var i :| 0 <= i < |inner| && inner[i] == '.';
      assert d[i + 1] == '.';
    }
  }

  lemma OnlyAtOfJohnAtLocalhost(s: string, at: int)
    requires s == "john@localhost" && 0 <= at < |s| && s[at] == '@'
    ensures at == 4 && !IsDomain(s[at + 1..])
  {
    assert at == 4;
    var d := s[at + 1..];
    assert forall i :: 0 <= i < |d| ==> d[i] == s[5 + i];
    assert '.' !in d;
    if IsDomain(d) {
      DomainHasDot(d);
    }
  }

  /** The domain needs a dot: "john@localhost" is refused. */
  lemma EmailWithoutDotRejected(s: string)
    requires s == "john@localhost"
    ensures ValidateEmail(s) == Reject(EmailMessage)
  {
    forall at | 0 <= at < |s| && s[at] == '@'
      ensures !IsDomain(s[at + 1..])
    {
      OnlyAtOfJohnAtLocalhost(s, at);
    }
  }

  lemma JohnSmithNotLocal(s: string)
    requires s == "john smith@example.com"
    ensures !IsLocalPart(s[..10])
  {
    UnquotedWithSpaceIsNotLocal(s[..10], 4);
  }

  lemma OnlyAtOfJohnSmith(s: string, at: int)
    requires s == "john smith@example.com" && 0 <= at < |s| && s[at] == '@'
    ensures !IsLocalPart(s[..at])
  {
    assert at == 10;
    JohnSmithNotLocal(s);
  }

  /** An unquoted local part with a space is refused: "john smith@example.com". */
  lemma EmailWithSpaceRejected(s: string)
    requires s == "john smith@example.com"
    ensures ValidateEmail(s) == Reject(EmailMessage)
  {
    forall at | 0 <= at < |s| && s[at] == '@'
      ensures !IsLocalPart(s[..at])
    {
      OnlyAtOfJohnSmith(s, at);
    }
  }

  lemma UnquotedWithSpaceIsNotLocal(local: string, i: int)
    requires 0 <= i < |local| && local[0] != '"' && IsJsWhitespace(local[i])
    ensures !IsLocalPart(local)
  {
    if IsDotAtom(local) {
      DotAtomHasNoWhitespace(local, i);
    }
  }

  // ---------------------------------------------------------------------- url

  /** `s` holds `pat` at position `i`. */
  predicate HasAt(s: string, i: int, pat: string)
  {
    0 <= i && i + |pat| <= |s| && forall k :: 0 <= k < |pat| ==> s[i + k] == pat[k]
  }

  /** `https://` at `i` when `secure` is 1, `http://` when it is 0. */
  predicate SchemeAt(s: string, i: int, secure: int)
  {
    && 0 <= i && 0 <= secure <= 1 && i + 7 + secure <= |s|
    && s[i] == 'h' && s[i + 1] == 't' && s[i + 2] == 't' && s[i + 3] == 'p'
    && (secure == 1 ==> s[i + 4] == 's')
    && s[i + 4 + secure] == ':' && s[i + 5 + secure] == '/' && s[i + 6 + secure] == '/'
  }

  /** `www.` at `i`. */
  predicate WwwAt(s: string, i: int)
  {
    0 <= i && i + 4 <= |s| && s[i] == 'w' && s[i + 1] == 'w' && s[i + 2] == 'w' && s[i + 3] == '.'
  }

  lemma SchemeIsLiteral(s: string, i: int, secure: int)
    requires SchemeAt(s, i, secure)
    ensures secure == 1 ==> HasAt(s, i, "https://")
    ensures secure == 0 ==> HasAt(s, i, "http://")
  {
  }

  /** `[-a-zA-Z0-9@:%._\+~#=]` */
  predicate IsHostChar(c: char)
  {
    || IsAsciiLetter(c) || IsDigit(c)
    || c == '-' || c == '@' || c == ':' || c == '%' || c == '.' || c == '_' || c == '+' || c == '~' || c == '#' || c == '='
  }

  predicate AllHostChars(s: string, from: int, to: int)
    requires 0 <= from <= to <= |s|
  {
    forall k :: from <= k < to ==> IsHostChar(s[k])
  }

  predicate AllLower(s: string, from: int, to: int)
    requires 0 <= from <= to <= |s|
  {
    forall k :: from <= k < to ==> IsLower(s[k])
  }

  /**
   * The URL expression matches at `start` taking `https://` when `secure` is
   * 1 and `http://` when it is 0, `www.` when `www` is 1, `host` host
   * characters, a dot and `tld` lowercase letters ending at a word boundary.
   * The trailing `(...)*` group may match nothing, so it never decides a match.
   */
  predicate MatchesAt(s: string, start: int, secure: int, www: int, host: int, tld: int)
  {
    var schemeEnd := start + 7 + secure;
    var hostStart := schemeEnd + 4 * www;
    var dot := hostStart + host;
    var tldEnd := dot + 1 + tld;
    && 0 <= secure <= 1 && 0 <= www <= 1 && 2 <= host <= 256 && 2 <= tld <= 6
    && SchemeAt(s, start, secure)
    && (www == 1 ==> WwwAt(s, schemeEnd))
    && tldEnd <= |s|
    && AllHostChars(s, hostStart, dot)
    && s[dot] == '.'
    && AllLower(s, dot + 1, tldEnd)
    && (tldEnd == |s| || !IsWordChar(s[tldEnd]))
  }

  /** The language of the unanchored URL expression: it matches somewhere in the input. */
  predicate IsUrl(s: string)
  {
    exists start, secure, www, host, tld
      | 0 <= start < |s| && 0 <= secure <= 1 && 0 <= www <= 1 && 2 <= host <= 256 && 2 <= tld <= 6
      :: MatchesAt(s, start, secure, www, host, tld)
  }

  function ValidateUrl(input: string): (r: Answer)
    ensures r == Accept || r == Reject(UrlMessage)
    ensures r == Accept <==> IsUrl(input)
  {
    if IsUrl(input) then Accept else Reject(UrlMessage)
  }

  /** Every accepted input contains `http://` or `https://`. */
  lemma UrlNeedsScheme(input: string)
    requires ValidateUrl(input) == Accept
    ensures exists i :: HasAt(input, i, "http://") || HasAt(input, i, "https://")
  {
    if forall i :: !HasAt(input, i, "http://") && !HasAt(input, i, "https://") {
      forall start, secure, www, host, tld
        | 0 <= start < |input| && 0 <= secure <= 1 && 0 <= www <= 1 && 2 <= host <= 256 && 2 <= tld <= 6
        ensures !MatchesAt(input, start, secure, www, host, tld)
      {
        if MatchesAt(input, start, secure, www, host, tld) {
          SchemeIsLiteral(input, start, secure);
        }
      }
      assert false;
    }
  }

  /** A match anywhere makes the input accepted. */
  lemma UrlAt(s: string, start: int, secure: int, www: int, host: int, tld: int)
    requires 0 <= start < |s| && MatchesAt(s, start, secure, www, host, tld)
    ensures ValidateUrl(s) == Accept
  {
  }

  lemma ShiftScheme(prefix: string, input: string, i: int, secure: int)
    requires SchemeAt(input, i, secure)
    ensures SchemeAt(prefix + input, |prefix| + i, secure)
  {
    var s := prefix + input;
    var n := |prefix|;
    assert s[n + i] == input[i] && s[n + i + 1] == input[i + 1] && s[n + i + 2] == input[i + 2];
    assert s[n + i + 3] == input[i + 3] && s[n + i + 4] == input[i + 4];
    assert s[n + i + 4 + secure] == input[i + 4 + secure] && s[n + i + 5 + secure] == input[i + 5 + secure];
    assert s[n + i + 6 + secure] == input[i + 6 + secure];
  }

  lemma ShiftWww(prefix: string, input: string, i: int)
    requires WwwAt(input, i)
    ensures WwwAt(prefix + input, |prefix| + i)
  {
    var s := prefix + input;
    var n := |prefix|;
    assert s[n + i] == input[i] && s[n + i + 1] == input[i + 1];
    assert s[n + i + 2] == input[i + 2] && s[n + i + 3] == input[i + 3];
  }

  lemma ShiftRuns(prefix: string, input: string, from: int, to: int)
    requires 0 <= from <= to <= |input|
    ensures AllHostChars(input, from, to) ==> AllHostChars(prefix + input, |prefix| + from, |prefix| + to)
    ensures AllLower(input, from, to) ==> AllLower(prefix + input, |prefix| + from, |prefix| + to)
  {
    var s := prefix + input;
    var n := |prefix|;
    assert forall k :: n + from <= k < n + to ==> s[k] == input[k - n];
  }

  /** A match survives putting text in front of it, shifted by the text's length. */
  lemma ShiftMatch(prefix: string, input: string, start: int, secure: int, www: int, host: int, tld: int)
    requires 0 <= start && MatchesAt(input, start, secure, www, host, tld)
    ensures MatchesAt(prefix + input, |prefix| + start, secure, www, host, tld)
  {
    var s := prefix + input;
    var n := |prefix|;
    var schemeEnd := start + 7 + secure;
    var hostStart := schemeEnd + 4 * www;
    var dot := hostStart + host;
    var tldEnd := dot + 1 + tld;
    ShiftScheme(prefix, input, start, secure);
    if www == 1 {
      ShiftWww(prefix, input, schemeEnd);
    }
    ShiftRuns(prefix, input, hostStart, dot);
    ShiftRuns(prefix, input, dot + 1, tldEnd);
    assert s[n + dot] == input[dot];
    assert tldEnd < |input| ==> s[n + tldEnd] == input[tldEnd];
  }

  /** The search is unanchored: text in front of an accepted input does not change the answer. */
  lemma UrlAfterPrefix(prefix: string, input: string)
    requires ValidateUrl(input) == Accept
    ensures ValidateUrl(prefix + input) == Accept
  {
    forall start, secure, www, host, tld
      | 0 <= start < |input| && 0 <= secure <= 1 && 0 <= www <= 1 && 2 <= host <= 256 && 2 <= tld <= 6
        && MatchesAt(input, start, secure, www, host, tld)
      ensures ValidateUrl(prefix + input) == Accept
    {
      ShiftedUrlAt(prefix, input, start, secure, www, host, tld);
    }
  }

  lemma ShiftedUrlAt(prefix: string, input: string, start: int, secure: int, www: int, host: int, tld: int)
    requires 0 <= start < |input| && MatchesAt(input, start, secure, www, host, tld)
    ensures ValidateUrl(prefix + input) == Accept
  {
    ShiftMatch(prefix, input, start, secure, www, host, tld);
    UrlAt(prefix + input, |prefix| + start, secure, www, host, tld);
  }

  /** An address with scheme, `www.`, a host and a top-level domain is accepted. */
  lemma UrlExample(s: string)
    requires s == "https://www.example.com"
    ensures ValidateUrl(s) == Accept
  {
    assert SchemeAt(s, 0, 1) && WwwAt(s, 8);
    assert AllHostChars(s, 12, 19);
    assert s[19] == '.' && AllLower(s, 20, 23);
    UrlAt(s, 0, 1, 1, 7, 3);
  }

  /** The expression is not anchored: an address inside other text is accepted. */
  lemma UrlInTextExample(s: string)
    requires s == "see http://example.org/path?q=1"
    ensures ValidateUrl(s) == Accept
  {
    assert SchemeAt(s, 4, 0);
    assert AllHostChars(s, 11, 18);
    assert s[18] == '.' && AllLower(s, 19, 22) && !IsWordChar(s[22]);
    UrlAt(s, 4, 0, 0, 7, 3);
  }
}
