/** String operations of the JavaScript runtime that the builder relies on
    (trim, case mapping, split, join, includes, replace), written out on
    `seq<char>`. Case mapping covers ASCII and the Latin-1 letters, which is
    what Spanish CV text uses; the full Unicode tables are not modelled. */
module TextOps {

  /** JavaScript's WhiteSpace and LineTerminator code points: what `trim()`
      removes and what the regular-expression class `\s` matches. */
  predicate IsSpace(c: char) {
    c == ' ' || c == '\t' || c == '\n' || c == '\r' || c == '\U{000B}' || c == '\U{000C}'
    || c == '\U{00A0}' || c == '\U{1680}' || ('\U{2000}' <= c <= '\U{200A}')
    || c == '\U{2028}' || c == '\U{2029}' || c == '\U{202F}' || c == '\U{205F}'
    || c == '\U{3000}' || c == '\U{FEFF}'
  }

  predicate IsDigit(c: char) {
    '0' <= c <= '9'
  }

  function DigitValue(c: char): (d: nat)
    requires IsDigit(c)
    ensures d < 10
  {
    c as int - '0' as int
  }

  /** Every character is white space. */
  predicate AllSpace(s: string) {
    forall i :: 0 <= i < |s| ==> IsSpace(s[i])
  }

  /** Removes leading white space; what is left is a suffix. */
  function TrimStart(s: string): (r: string)
    ensures |r| <= |s| && r == s[|s| - |r|..]
  {
    if s != [] && IsSpace(s[0]) then TrimStart(s[1..]) else s
  }

  /** Removes trailing white space; what is left is a prefix. */
  function TrimEnd(s: string): (r: string)
    ensures |r| <= |s| && r == s[..|r|]
  {
    if s != [] && IsSpace(s[|s| - 1]) then TrimEnd(s[..|s| - 1]) else s
  }

  /** `TrimStart` removes white space only, and all of the leading white space. */
  lemma {:induction false} TrimStartSpec(s: string)
    ensures AllSpace(s[..|s| - |TrimStart(s)|])
    ensures TrimStart(s) != [] ==> !IsSpace(TrimStart(s)[0])
  {
    if s != [] && IsSpace(s[0]) {
      TrimStartSpec(s[1..]);
      var k := |s| - |TrimStart(s)|;
      assert s[..k] == [s[0]] + s[1..][..k - 1];
    }
  }

  /** `TrimEnd` removes white space only, and all of the trailing white space. */
  lemma {:induction false} TrimEndSpec(s: string)
    ensures AllSpace(s[|TrimEnd(s)|..])
    ensures TrimEnd(s) != [] ==> !IsSpace(TrimEnd(s)[|TrimEnd(s)| - 1])
  {
    if s != [] && IsSpace(s[|s| - 1]) {
      var init := s[..|s| - 1];
      TrimEndSpec(init);
      var k := |TrimEnd(s)|;
      assert s[k..] == init[k..] + [s[|s| - 1]];
    }
  }

  /** A string starting with a non-space character has nothing to trim at the start. */
  lemma {:induction false} TrimStartNoSpace(s: string)
    requires s != [] && !IsSpace(s[0])
    ensures TrimStart(s) == s
  {
  }

  /** A string ending with a non-space character has nothing to trim at the end. */
  lemma {:induction false} TrimEndNoSpace(s: string)
    requires s != [] && !IsSpace(s[|s| - 1])
    ensures TrimEnd(s) == s
  {
  }

  /** Trimming the end of a string that starts with a non-space character
      keeps that character. */
  lemma {:induction false} TrimEndKeepsFirst(s: string)
    requires s != [] && !IsSpace(s[0])
    ensures TrimEnd(s) != [] && TrimEnd(s)[0] == s[0]
  {
    if IsSpace(s[|s| - 1]) {
      TrimEndKeepsFirst(s[..|s| - 1]);
    }
  }

  /** Trimming the start of a string that ends with a non-space character
      keeps that character last. */
  lemma {:induction false} TrimStartKeepsLast(s: string)
    requires s != [] && !IsSpace(s[|s| - 1])
    ensures TrimStart(s) != [] && TrimStart(s)[|TrimStart(s)| - 1] == s[|s| - 1]
  {
    if IsSpace(s[0]) {
      assert s[1..][|s| - 2] == s[|s| - 1];
      TrimStartKeepsLast(s[1..]);
    }
  }

  /** `String.prototype.trim`. */
  function Trim(s: string): string {
    TrimEnd(TrimStart(s))
  }

  /** The trimmed string is the infix of `s` left when the white space at
      both ends is cut off, and it neither starts nor ends with white space. */
  lemma {:induction false} TrimIsInfix(s: string)
    ensures exists i, j :: 0 <= i <= j <= |s| && Trim(s) == s[i..j]
    ensures Trim(s) != [] ==> !IsSpace(Trim(s)[0]) && !IsSpace(Trim(s)[|Trim(s)| - 1])
  {
    var k := |s| - |TrimStart(s)|;
    TrimAt(s);
    assert 0 <= k <= k + |Trim(s)| <= |s| && Trim(s) == s[k..k + |Trim(s)|];
    TrimEndsNoSpace(s);
  }

  /** Where the trimmed string sits in `s`. */
  lemma {:induction false} TrimAt(s: string)
    ensures |s| - |TrimStart(s)| + |Trim(s)| <= |s|
    ensures Trim(s) == s[|s| - |TrimStart(s)|..|s| - |TrimStart(s)| + |Trim(s)|]
  {
    PrefixOfSuffix(s, TrimStart(s), Trim(s));
  }

  /** A prefix `r` of a suffix `t` of `s` is the slice of `s` where `t` starts. */
  lemma {:induction false} PrefixOfSuffix(s: string, t: string, r: string)
    requires |t| <= |s| && t == s[|s| - |t|..]
    requires |r| <= |t| && r == t[..|r|]
    ensures |s| - |t| + |r| <= |s|
    ensures r == s[|s| - |t|..|s| - |t| + |r|]
  {
    SuffixPrefix(s, |s| - |t|, |r|);
  }

  /** A prefix of a suffix is a slice. */
  lemma {:induction false} SuffixPrefix(s: string, k: nat, n: nat)
    requires k + n <= |s|
    ensures s[k..][..n] == s[k..k + n]
  {
  }

  lemma {:induction false} TrimEndsNoSpace(s: string)
    ensures Trim(s) != [] ==> !IsSpace(Trim(s)[0]) && !IsSpace(Trim(s)[|Trim(s)| - 1])
  {
    var t := TrimStart(s);
    var r := TrimEnd(t);
    TrimStartSpec(s);
    TrimEndSpec(t);
    if r != [] {
      assert r[0] == t[0];
    }
  }

  /** Trimming a string that starts and ends with non-space characters changes nothing. */
  lemma {:induction false} TrimWhole(s: string)
    requires s != [] && !IsSpace(s[0]) && !IsSpace(s[|s| - 1])
    ensures Trim(s) == s
  {
    TrimStartNoSpace(s);
    TrimEndNoSpace(s);
  }

  lemma {:induction false} InfixChars(s: string, i: int, j: int, c: char)
    requires 0 <= i <= j <= |s| && c in s[i..j]
    ensures c in s
  {
    var k :| 0 <= k < j - i && s[i..j][k] == c;
    assert s[i + k] == c;
  }

  /** `TrimStart` only removes characters. */
  lemma {:induction false} TrimStartChars(s: string, c: char)
    requires c in TrimStart(s)
    ensures c in s
  {
    var u := TrimStart(s);
    var i := |s| - |u|;
    assert u == s[i..|s|];
    InfixChars(s, i, |s|, c);
  }

  /** `Trim` only removes characters. */
  lemma {:induction false} TrimChars(s: string, c: char)
    requires c in Trim(s)
    ensures c in s
  {
    var t := TrimStart(s);
    var r := TrimEnd(t);
    InfixChars(t, 0, |r|, c);
    InfixChars(s, |s| - |t|, |s|, c);
  }

  /** A string is blank (trims to the empty string) exactly when all its
      characters are white space. */
  lemma {:induction false} TrimEmptyIffAllSpace(s: string)
    ensures Trim(s) == [] <==> AllSpace(s)
  {
    var t := TrimStart(s);
    TrimStartSpec(s);
    TrimEndSpec(t);
    if t == [] {
      assert s[..|s|] == s;
    } else {
      assert t[0] == s[|s| - |t|];
      assert t[0..] == t;
    }
  }

  /** Upper-case mapping of `toUpperCase` on `a`-`z` and U+00E0-U+00FE
      (except U+00F7); every other character, `ß`, `µ` and `ÿ` included, is
      left as it is. */
  function UpperChar(c: char): char {
    if 'a' <= c <= 'z' || ('\U{00E0}' <= c <= '\U{00FE}' && c != '\U{00F7}')
    then (c as int - 32) as char
    else c
  }

  /** Lower-case mapping of `toLowerCase` on `A`-`Z` and U+00C0-U+00DE
      (except U+00D7); every other character is left as it is. */
  function LowerChar(c: char): char {
    if 'A' <= c <= 'Z' || ('\U{00C0}' <= c <= '\U{00DE}' && c != '\U{00D7}')
    then (c as int + 32) as char
    else c
  }

  function ToUpper(s: string): (r: string)
    ensures |r| == |s|
    ensures forall i :: 0 <= i < |s| ==> r[i] == UpperChar(s[i])
  {
    if s == [] then [] else [UpperChar(s[0])] + ToUpper(s[1..])
  }

  function ToLower(s: string): (r: string)
    ensures |r| == |s|
    ensures forall i :: 0 <= i < |s| ==> r[i] == LowerChar(s[i])
  {
    if s == [] then [] else [LowerChar(s[0])] + ToLower(s[1..])
  }

  /** Case mapping never changes white space, so it commutes with trimming. */
  lemma {:induction false} LowerKeepsSpaces(c: char)
    ensures IsSpace(LowerChar(c)) <==> IsSpace(c)
    ensures IsSpace(UpperChar(c)) <==> IsSpace(c)
  {
  }

  predicate StartsWith(s: string, p: string) {
    |p| <= |s| && s[..|p|] == p
  }

  predicate EndsWith(s: string, p: string) {
    |p| <= |s| && s[|s| - |p|..] == p
  }

  /** `s.includes(t)`: `t` occurs somewhere in `s`. */
  predicate Contains(s: string, t: string)
    decreases |s|
  {
    StartsWith(s, t) || (s != [] && Contains(s[1..], t))
  }

  /** `t` occurs in `s` starting at index `i`. */
  predicate OccursAt(s: string, t: string, i: int) {
    0 <= i <= |s| - |t| && s[i..i + |t|] == t
  }

  /** Text whose first character never occurs in `s` is not contained in it. */
  lemma {:induction false} ContainsNeedsFirst(s: string, t: string)
    requires t != [] && t[0] !in s
    ensures !Contains(s, t)
  {
    if s != [] {
      assert s[0] != t[0];
      assert forall c :: c in s[1..] ==> c in s;
      ContainsNeedsFirst(s[1..], t);
    }
  }

  /** `Contains` holds exactly when some infix of `s` equals `t`. */
  lemma {:induction false} ContainsIff(s: string, t: string)
    ensures Contains(s, t) <==> exists i :: OccursAt(s, t, i)
  {
    if s == [] {
      if Contains(s, t) {
        assert OccursAt(s, t, 0);
      }
      if exists i :: OccursAt(s, t, i) {
        var i :| OccursAt(s, t, i);
        assert StartsWith(s, t);
      }
    } else {
      ContainsIff(s[1..], t);
      if exists i :: OccursAt(s[1..], t, i) {
        var i :| OccursAt(s[1..], t, i);
        assert s[i + 1..i + 1 + |t|] == s[1..][i..i + |t|];
        assert OccursAt(s, t, i + 1);
      }
      if StartsWith(s, t) {
        assert OccursAt(s, t, 0);
      }
      if exists i :: OccursAt(s, t, i) {
        var i :| OccursAt(s, t, i);
        if i > 0 {
          assert s[1..][i - 1..i - 1 + |t|] == s[i..i + |t|];
          assert OccursAt(s[1..], t, i - 1);
        }
      }
    }
  }

  /** `s.split(sep)` for a one-character separator. */
  function Split(s: string, sep: char): (parts: seq<string>)
    ensures |parts| >= 1
    ensures forall k :: 0 <= k < |parts| ==> sep !in parts[k]
  {
    if s == [] then [""]
    else
      var rest := Split(s[1..], sep);
      if s[0] == sep then [""] + rest
      else [[s[0]] + rest[0]] + rest[1..]
  }

  /** `parts.join(sep)`. */
  function Join(parts: seq<string>, sep: string): string {
    if |parts| == 0 then ""
    else if |parts| == 1 then parts[0]
    else parts[0] + sep + Join(parts[1..], sep)
  }

  /** Every part occurs in the joined text. */
  lemma {:induction false} JoinOccurs(parts: seq<string>, sep: string, i: nat)
    requires i < |parts|
    ensures exists k :: OccursAt(Join(parts, sep), parts[i], k)
    decreases |parts|
  {
    var j := Join(parts, sep);
    if |parts| == 1 {
      assert OccursAt(j, parts[0], 0);
    } else {
      var rest := Join(parts[1..], sep);
      assert j == parts[0] + sep + rest;
      if i == 0 {
        assert j[..|parts[0]|] == parts[0];
        assert OccursAt(j, parts[0], 0);
      } else {
        JoinOccurs(parts[1..], sep, i - 1);
        var k :| OccursAt(rest, parts[1..][i - 1], k);
        var off := |parts[0] + sep|;
        assert j[off + k..off + k + |parts[i]|] == rest[k..k + |parts[i]|];
        assert OccursAt(j, parts[i], off + k);
      }
    }
  }

  /** An occurrence inside `m` is one inside `a + m + b`, shifted by `|a|`. */
  lemma {:induction false} OccursInMiddle(a: string, m: string, b: string, t: string, k: int)
    requires OccursAt(m, t, k)
    ensures OccursAt(a + m + b, t, |a| + k)
  {
    var s := a + m + b;
    assert s[|a| + k..|a| + k + |t|] == m[k..k + |t|];
  }

  /** Joining the pieces of a split with the separator gives the string back. */
  lemma {:induction false} JoinSplit(s: string, sep: char)
    ensures Join(Split(s, sep), [sep]) == s
  {
    if s != [] {
      var rest := Split(s[1..], sep);
      JoinSplit(s[1..], sep);
      if s[0] == sep {
        assert Split(s, sep) == [""] + rest;
      } else {
        var parts := Split(s, sep);
        assert parts == [[s[0]] + rest[0]] + rest[1..];
        if |rest| == 1 {
        } else {
          assert parts[1..] == rest[1..];
          assert Join(rest, [sep]) == rest[0] + [sep] + Join(rest[1..], [sep]);
        }
      }
    }
  }

  /** Splitting a join of separator-free pieces gives the pieces back. */
  lemma {:induction false} SplitJoin(parts: seq<string>, sep: char)
    requires |parts| >= 1
    requires forall k :: 0 <= k < |parts| ==> sep !in parts[k]
    ensures Split(Join(parts, [sep]), sep) == parts
  {
    if |parts| == 1 {
      SplitFree(parts[0], sep);
    } else {
      SplitJoin(parts[1..], sep);
      SplitPrefix(parts[0], Join(parts[1..], [sep]), sep);
      assert [parts[0]] + parts[1..] == parts;
    }
  }

  /** A string without the separator splits into itself. */
  lemma {:induction false} SplitFree(s: string, sep: char)
    requires sep !in s
    ensures Split(s, sep) == [s]
  {
    if s != [] {
      SplitFree(s[1..], sep);
      assert [s[0]] + s[1..] == s;
    }
  }

  /** Splitting `a + sep + b` with `a` separator-free gives `a` followed by the pieces of `b`. */
  lemma {:induction false} SplitPrefix(a: string, b: string, sep: char)
    requires sep !in a
    ensures Split(a + [sep] + b, sep) == [a] + Split(b, sep)
  {
    if a == [] {
      assert a + [sep] + b == [sep] + b;
      assert ([sep] + b)[1..] == b;
    } else {
      SplitPrefix(a[1..], b, sep);
      assert (a + [sep] + b)[1..] == a[1..] + [sep] + b;
      assert [a[0]] + a[1..] == a;
    }
  }

  /** `s.replace(/\*\*\/g, '')`: every non-overlapping `**`, scanned from the
      left, is removed. */
  function StripMarkers(s: string): (r: string)
    ensures |r| <= |s|
    ensures s != [] && s[0] != '*' ==> r != [] && r[0] == s[0]
  {
    if |s| >= 2 && s[0] == '*' && s[1] == '*' then StripMarkers(s[2..])
    else if s == [] then []
    else [s[0]] + StripMarkers(s[1..])
  }

  /** After the markers are stripped no `**` is left, and a string without
      `**` is left as it is. */
  lemma {:induction false} StripMarkersClean(s: string)
    ensures !Contains(StripMarkers(s), "**")
  {
    var r := StripMarkers(s);
    if |s| >= 2 && s[0] == '*' && s[1] == '*' {
      StripMarkersClean(s[2..]);
    } else if s != [] {
      StripMarkersClean(s[1..]);
      var t := StripMarkers(s[1..]);
      assert r == [s[0]] + t;
      assert r[1..] == t;
      if s[0] == '*' && |s| >= 2 {
        assert s[1..][0] == s[1] && s[1] != '*';
        assert r[1] == t[0];
      }
      assert !StartsWith(r, "**");
    }
  }

  lemma {:induction false} StripMarkersFree(s: string)
    requires !Contains(s, "**")
    ensures StripMarkers(s) == s
  {
    if s != [] {
      assert !StartsWith(s, "**");
      StripMarkersFree(s[1..]);
    }
  }

  /** `s.replace(/ /g, by)`: every space character replaced. */
  function ReplaceSpaces(s: string, repl: char): (r: string)
    ensures |r| == |s|
    ensures forall i :: 0 <= i < |s| ==> r[i] == if s[i] == ' ' then repl else s[i]
  {
    if s == [] then [] else [if s[0] == ' ' then repl else s[0]] + ReplaceSpaces(s[1..], repl)
  }

  /** `s.replace(/\s/g, '')`: every white-space character removed. */
  function RemoveSpaces(s: string): (r: string)
    ensures forall c :: c in r ==> c in s && !IsSpace(c)
    ensures (forall i :: 0 <= i < |s| ==> !IsSpace(s[i])) ==> r == s
  {
    if s == [] then [] else (if IsSpace(s[0]) then [] else [s[0]]) + RemoveSpaces(s[1..])
  }

  /** `[a, b].filter(Boolean).join(sep)`: the non-empty ones of two strings. */
  function JoinNonEmpty2(a: string, b: string, sep: string): (r: string)
    ensures a == [] && b == [] ==> r == []
    ensures a == [] ==> r == b
    ensures b == [] ==> r == a
    ensures a != [] && b != [] ==> r == a + sep + b
  {
    if a == [] then b else if b == [] then a else a + sep + b
  }

  /** `parts.filter(Boolean)`: the non-empty strings, in order. */
  function NonEmpty(parts: seq<string>): (r: seq<string>)
    ensures |r| <= |parts|
    ensures forall k :: 0 <= k < |r| ==> r[k] != [] && r[k] in parts
    ensures forall p :: p in parts && p != [] ==> p in r
  {
    if parts == [] then []
    else (if parts[0] == [] then [] else [parts[0]]) + NonEmpty(parts[1..])
  }
}
