/**
  The parts of java.lang.String that the SDK's text handling relies on:
  isBlank, split (on a single character and on the line-break regex \R),
  String.join and repeat.  Strings are sequences of characters.
 */
module JavaStrings {

  /** Character.isWhitespace: the Unicode space, line and paragraph separators
      other than the non-breaking spaces, and the listed ASCII controls. */
  predicate IsWhitespace(c: char) {
    c == ' ' || c == '\t' || c == '\n' || c == '\U{000B}' || c == '\U{000C}' || c == '\r'
    || ('\U{001C}' <= c <= '\U{001F}')
    || c == '\U{1680}' || ('\U{2000}' <= c <= '\U{2006}') || ('\U{2008}' <= c <= '\U{200A}')
    || c == '\U{2028}' || c == '\U{2029}' || c == '\U{205F}' || c == '\U{3000}'
  }

  /** String.isBlank: empty, or whitespace only. */
  predicate IsBlank(s: string) {
    forall i :: 0 <= i < |s| ==> IsWhitespace(s[i])
  }

  /** A character that on its own is a match of the regex \R. */
  predicate IsLineTerminator(c: char) {
    c == '\n' || c == '\U{000B}' || c == '\U{000C}' || c == '\r'
    || c == '\U{0085}' || c == '\U{2028}' || c == '\U{2029}'
  }

  predicate HasLineTerminator(s: string) {
    exists i :: 0 <= i < |s| && IsLineTerminator(s[i])
  }

  // ---------------------------------------------------------------
  // Joining and repeating
  // ---------------------------------------------------------------

  /** String.join(sep, parts). */
  function Join(sep: string, parts: seq<string>): string
    decreases |parts|
  {
    if |parts| == 0 then ""
    else if |parts| == 1 then parts[0]
    else parts[0] + sep + Join(sep, parts[1..])
  }

  /** w.repeat(k). */
  function Repeat(w: string, k: nat): string {
    if k == 0 then "" else w + Repeat(w, k - 1)
  }

  /** w.repeat(k) has k times the length of w. */
  lemma {:induction false} RepeatLength(w: string, k: nat)
    ensures |Repeat(w, k)| == k * |w|
    decreases k
  {
    if k > 0 {
      RepeatLength(w, k - 1);
      assert k * |w| == (k - 1) * |w| + |w|;
    }
  }

  /** Joining one more part appends the separator and that part. */
  lemma {:induction false} JoinSnoc(sep: string, parts: seq<string>, x: string)
    requires |parts| >= 1
    ensures Join(sep, parts + [x]) == Join(sep, parts) + sep + x
    decreases |parts|
  {
    if |parts| == 1 {
      assert parts + [x] == [parts[0], x];
      assert [parts[0], x][1..] == [x];
    } else {
      assert (parts + [x])[1..] == parts[1..] + [x];
      JoinSnoc(sep, parts[1..], x);
    }
  }

  /** A joined string avoids a character that neither the separator nor any part contains. */
  lemma {:induction false} JoinAvoids(sep: string, parts: seq<string>, c: char)
    requires c !in sep
    requires forall i :: 0 <= i < |parts| ==> c !in parts[i]
    ensures c !in Join(sep, parts)
    decreases |parts|
  {
    if |parts| > 1 {
      JoinAvoids(sep, parts[1..], c);
    }
  }

  // ---------------------------------------------------------------
  // Splitting on one character
  // ---------------------------------------------------------------

  /** Every piece between occurrences of sep, empty ones included: the list
      Pattern.split builds before it drops trailing empty strings. */
  function CharPieces(s: string, sep: char): (r: seq<string>)
    ensures |r| >= 1
    ensures forall i :: 0 <= i < |r| ==> sep !in r[i]
    decreases |s|
  {
    if s == [] then [""]
    else if s[0] == sep then [""] + CharPieces(s[1..], sep)
    else
      var rest := CharPieces(s[1..], sep);
      [[s[0]] + rest[0]] + rest[1..]
  }

  /** The pieces, joined back with the separator, are the string itself. */
  lemma {:induction false} CharPiecesJoin(s: string, sep: char)
    ensures Join([sep], CharPieces(s, sep)) == s
    decreases |s|
  {
    if s != [] {
      CharPiecesJoin(s[1..], sep);
      var rest := CharPieces(s[1..], sep);
      if s[0] == sep {
        assert ([""] + rest)[1..] == rest;
      } else {
        var r := [[s[0]] + rest[0]] + rest[1..];
        assert r[1..] == rest[1..];
        if |rest| == 1 {
          assert Join([sep], r) == [s[0]] + rest[0];
        } else {
          assert Join([sep], r) == [s[0]] + rest[0] + [sep] + Join([sep], rest[1..]);
          assert Join([sep], rest) == rest[0] + [sep] + Join([sep], rest[1..]);
        }
        assert s == [s[0]] + s[1..];
      }
    }
  }

  /** Splitting a string whose first piece is a and whose separator follows a. */
  lemma {:induction false} CharPiecesAppend(a: string, sep: char, b: string)
    requires sep !in a
    ensures CharPieces(a + [sep] + b, sep) == [a] + CharPieces(b, sep)
    decreases |a|
  {
    if a == [] {
      assert a + [sep] + b == [sep] + b;
      assert ([sep] + b)[1..] == b;
    } else {
      assert (a + [sep] + b)[0] == a[0];
      assert (a + [sep] + b)[1..] == a[1..] + [sep] + b;
      CharPiecesAppend(a[1..], sep, b);
      assert [a[0]] + a[1..] == a;
    }
  }

  /** A string without the separator is a single piece. */
  lemma {:induction false} CharPiecesNone(s: string, sep: char)
    requires sep !in s
    ensures CharPieces(s, sep) == [s]
    decreases |s|
  {
    if s != [] {
      CharPiecesNone(s[1..], sep);
      assert [s[0]] + s[1..] == s;
    }
  }

  /** Drops the trailing empty strings, as split does when its limit is zero. */
  function DropTrailingEmpty(ps: seq<string>): (r: seq<string>)
    ensures r <= ps
    ensures forall i :: |r| <= i < |ps| ==> ps[i] == ""
    ensures r == [] || r[|r| - 1] != ""
    decreases |ps|
  {
    if ps == [] then []
    else if ps[|ps| - 1] == "" then DropTrailingEmpty(ps[..|ps| - 1])
    else ps
  }

  /** s.split(String.valueOf(sep)): a string without the separator is returned
      whole (so "" gives [""]); otherwise the pieces less trailing empty ones. */
  function Split(s: string, sep: char): (r: seq<string>)
    ensures forall i :: 0 <= i < |r| ==> sep !in r[i]
  {
    if sep !in s then [s] else DropTrailingEmpty(CharPieces(s, sep))
  }

  /** A character absent from the input is absent from every piece. */
  lemma {:induction false} CharPiecesAvoid(s: string, sep: char, c: char)
    requires c !in s
    ensures forall i :: 0 <= i < |CharPieces(s, sep)| ==> c !in CharPieces(s, sep)[i]
    decreases |s|
  {
    if s != [] {
      CharPiecesAvoid(s[1..], sep, c);
    }
  }

  /** A character absent from the input is absent from every field. */
  lemma SplitAvoids(s: string, sep: char, c: char)
    requires c !in s
    ensures forall i :: 0 <= i < |Split(s, sep)| ==> c !in Split(s, sep)[i]
  {
    CharPiecesAvoid(s, sep, c);
  }

  /** Joining a prefix of a list whose remaining entries are all empty gives a
      prefix of the whole join, followed only by separators. */
  lemma {:induction false} JoinDropped(sep: char, ps: seq<string>, r: seq<string>)
    requires r <= ps
    requires forall i :: |r| <= i < |ps| ==> ps[i] == ""
    ensures Join([sep], r) <= Join([sep], ps)
    ensures forall i :: |Join([sep], r)| <= i < |Join([sep], ps)| ==> Join([sep], ps)[i] == sep
    decreases |ps|
  {
    if |r| < |ps| {
      var q := ps[..|ps| - 1];
      JoinDropped(sep, q, r);
      assert ps == q + [""];
      if |q| >= 1 {
        JoinSnoc([sep], q, "");
        assert Join([sep], ps) == Join([sep], q) + [sep];
      } else {
        assert Join([sep], ps) == "";
      }
    } else {
      assert r == ps;
    }
  }

  /** What split keeps, joined back, is a prefix of the input, and whatever
      follows it consists of separators only: nothing but trailing empty
      fields is lost.  The last kept field is never empty. */
  lemma SplitRecombines(s: string, sep: char)
    requires sep in s
    ensures Join([sep], Split(s, sep)) <= s
    ensures forall i :: |Join([sep], Split(s, sep))| <= i < |s| ==> s[i] == sep
    ensures Split(s, sep) == [] || Split(s, sep)[|Split(s, sep)| - 1] != ""
  {
    CharPiecesJoin(s, sep);
    JoinDropped(sep, CharPieces(s, sep), Split(s, sep));
  }

  /** A string with no separator comes back as its only field. */
  lemma SplitNone(s: string, sep: char)
    requires sep !in s
    ensures Split(s, sep) == [s]
  {
  }

  // ---------------------------------------------------------------
  // Splitting on line breaks (\R)
  // ---------------------------------------------------------------

  /** Every piece between matches of \R, empty ones included; a CR
      immediately followed by LF is one match. */
  function LinePieces(s: string): (r: seq<string>)
    ensures |r| >= 1
    ensures forall i :: 0 <= i < |r| ==> !HasLineTerminator(r[i])
    decreases |s|
  {
    if s == [] then [""]
    else if |s| >= 2 && s[0] == '\r' && s[1] == '\n' then [""] + LinePieces(s[2..])
    else if IsLineTerminator(s[0]) then [""] + LinePieces(s[1..])
    else
      var rest := LinePieces(s[1..]);
      [[s[0]] + rest[0]] + rest[1..]
  }


  /** Every character of s is a line terminator. */
  predicate AllLineTerminators(s: string) {
    forall i :: 0 <= i < |s| ==> IsLineTerminator(s[i])
  }

  /** Every piece is empty. */
  predicate AllEmpty(ps: seq<string>) {
    forall i :: 0 <= i < |ps| ==> ps[i] == ""
  }

  lemma AllEmptyCons(rest: seq<string>)
    ensures AllEmpty([""] + rest) <==> AllEmpty(rest)
  {
    assert forall i :: 0 <= i < |rest| ==> ([""] + rest)[i + 1] == rest[i];
  }

  lemma AllLineTerminatorsDrop(s: string, k: nat)
    requires k <= |s|
    requires forall i :: 0 <= i < k ==> IsLineTerminator(s[i])
    ensures AllLineTerminators(s) <==> AllLineTerminators(s[k..])
  {
  }

  /** Every piece is empty exactly when every character is a line terminator. */
  lemma {:induction false} LinePiecesAllEmpty(s: string)
    ensures AllEmpty(LinePieces(s)) <==> AllLineTerminators(s)
    decreases |s|
  {
    if s == [] {
    } else if IsLineTerminator(s[0]) {
      var k := if |s| >= 2 && s[0] == '\r' && s[1] == '\n' then 2 else 1;
      LinePiecesAllEmpty(s[k..]);
      assert LinePieces(s) == [""] + LinePieces(s[k..]);
      AllEmptyCons(LinePieces(s[k..]));
      AllLineTerminatorsDrop(s, k);
    } else {
      assert LinePieces(s)[0] != "";
    }
  }

  /** t is one match of \R in front of b: CRLF, or a single terminator that
      is not the CR of a CRLF. */
  predicate IsBreak(t: string, b: string) {
    t == "\r\n"
    || (|t| == 1 && IsLineTerminator(t[0]) && !(t[0] == '\r' && |b| > 0 && b[0] == '\n'))
  }

  /** s.split("\\R"): the input itself when \R does not match, otherwise the
      pieces between matches with trailing empty pieces dropped.  It yields
      no line at all exactly when the input is non-empty and made of line
      terminators only. */
  function SplitLines(s: string): (r: seq<string>)
    ensures forall i :: 0 <= i < |r| ==> !HasLineTerminator(r[i])
    ensures r == [] <==> s != "" && AllLineTerminators(s)
    ensures !HasLineTerminator(s) ==> r == [s]
    ensures HasLineTerminator(s) ==> r == DropTrailingEmpty(LinePieces(s))
  {
    LinePiecesAllEmpty(s);
    assert s != "" && AllLineTerminators(s) ==> IsLineTerminator(s[0]);
    if !HasLineTerminator(s) then [s] else DropTrailingEmpty(LinePieces(s))
  }

  /** The first piece of a string whose first line is a, ended by the match t
      of \R: a, followed by the pieces of the rest. */
  lemma {:induction false} LinePiecesBreak(a: string, t: string, b: string)
    requires !HasLineTerminator(a)
    requires IsBreak(t, b)
    ensures LinePieces(a + t + b) == [a] + LinePieces(b)
    decreases |a|
  {
    var s := a + t + b;
    if a == [] {
      assert s == t + b;
      if t == "\r\n" {
        assert s[0] == '\r' && s[1] == '\n' && s[2..] == b;
      } else {
        assert s[0] == t[0] && s[1..] == b;
        assert !(|s| >= 2 && s[0] == '\r' && s[1] == '\n') by {
          if |s| >= 2 { assert s[1] == b[0]; }
        }
      }
    } else {
      assert !IsLineTerminator(a[0]);
      assert s[0] == a[0];
      assert s[1..] == a[1..] + t + b;
      assert !HasLineTerminator(a[1..]) by {
        assert forall i :: 0 <= i < |a[1..]| ==> a[1..][i] == a[i + 1];
      }
      LinePiecesBreak(a[1..], t, b);
      assert [a[0]] + a[1..] == a;
    }
  }

  /** The lines of a string whose first line is a, ended by the match t of
      \R: a, then the pieces of the rest, with trailing empty lines dropped. */
  lemma SplitLinesBreak(a: string, t: string, b: string)
    requires !HasLineTerminator(a)
    requires IsBreak(t, b)
    ensures SplitLines(a + t + b) == DropTrailingEmpty([a] + LinePieces(b))
  {
    LinePiecesBreak(a, t, b);
    var s := a + t + b;
    assert s[|a|] == t[0];
  }

  /** A string without line terminators is a single line. */
  lemma {:induction false} LinePiecesNone(s: string)
    requires !HasLineTerminator(s)
    ensures LinePieces(s) == [s]
    decreases |s|
  {
    if s != [] {
      assert !IsLineTerminator(s[0]);
      assert !HasLineTerminator(s[1..]) by {
        assert forall i :: 0 <= i < |s[1..]| ==> s[1..][i] == s[i + 1];
      }
      LinePiecesNone(s[1..]);
      assert [s[0]] + s[1..] == s;
    }
  }

  /** CR LF is a single break: two lines, with no empty line between them. */
  lemma CrLfIsOneBreak(a: string, b: string)
    requires !HasLineTerminator(a) && !HasLineTerminator(b) && b != ""
    ensures SplitLines(a + "\r\n" + b) == [a, b]
  {
    SplitLinesBreak(a, "\r\n", b);
    LinePiecesNone(b);
  }

  /** LF CR is two breaks: the empty line between them is kept. */
  lemma LfCrIsTwoBreaks(a: string, b: string)
    requires !HasLineTerminator(a) && !HasLineTerminator(b) && b != ""
    ensures SplitLines(a + "\n\r" + b) == [a, "", b]
  {
    assert a + "\n\r" + b == a + "\n" + ("\r" + b);
    LinePiecesBreak("", "\r", b);
    assert "" + "\r" + b == "\r" + b;
    SplitLinesBreak(a, "\n", "\r" + b);
    LinePiecesNone(b);
  }

  /** The empty string splits into one empty line. */
  lemma SplitLinesOfEmpty()
    ensures SplitLines("") == [""]
  {
  }
}
