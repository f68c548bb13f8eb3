/** Text rules shared by both revisions of the plugin: the white-space trim
    applied to every pushed value, the split of the hidden textarea's value
    on runs of newline, carriage return and comma, and the newline join that
    writes the items back into the textarea. */
module Tokens {

  /** JavaScript's regular-expression class `\s`. */
  predicate IsSpace(c: char) {
    || c == ' ' || c == '\t' || c == '\n' || c == '\r' || c == '\U{0B}' || c == '\U{0C}'
    || c == '\U{A0}' || c == '\U{1680}' || ('\U{2000}' <= c <= '\U{200A}')
    || c == '\U{2028}' || c == '\U{2029}' || c == '\U{202F}' || c == '\U{205F}'
    || c == '\U{3000}' || c == '\U{FEFF}'
  }

  /** The class `[\n\r,]` the textarea's value is split on. */
  predicate IsDelimiter(c: char) {
    c == '\n' || c == '\r' || c == ','
  }

  predicate DelimiterFree(s: string) {
    forall k :: 0 <= k < |s| ==> !IsDelimiter(s[k])
  }

  predicate AllSpace(s: string) {
    forall k :: 0 <= k < |s| ==> IsSpace(s[k])
  }

  /** No white space at either end. */
  predicate Trimmed(s: string) {
    s == [] || (!IsSpace(s[0]) && !IsSpace(s[|s| - 1]))
  }

  /** What an item can hold: non-empty text without surrounding white space. */
  predicate IsItemText(s: string) {
    s != [] && Trimmed(s)
  }

  /** The `^\s+` half of the trim. */
  function TrimStart(s: string): string {
    if s != [] && IsSpace(s[0]) then TrimStart(s[1..]) else s
  }

  /** What TrimStart leaves is a suffix, and all it drops is white space. */
  lemma {:induction false} TrimStartDropsSpace(s: string)
    ensures var r := TrimStart(s);
      && |r| <= |s| && r == s[|s| - |r|..]
      && AllSpace(s[..|s| - |r|])
      && (r == [] || !IsSpace(r[0]))
      && (AllSpace(s) ==> r == [])
  {
    if s != [] && IsSpace(s[0]) {
      TrimStartDropsSpace(s[1..]);
      var r := TrimStart(s[1..]);
      assert s[1..][|s| - 1 - |r|..] == s[|s| - |r|..];
      forall k | 0 <= k < |s| - |r| ensures IsSpace(s[k]) {
        if k > 0 {
          assert s[k] == s[1..][..|s| - 1 - |r|][k - 1];
        }
      }
    }
  }

  /** The `\s+$` half of the trim. */
  function TrimEnd(s: string): string {
    if s != [] && IsSpace(s[|s| - 1]) then TrimEnd(s[..|s| - 1]) else s
  }

  /** What TrimEnd leaves is a prefix, and all it drops is white space. */
  lemma {:induction false} TrimEndDropsSpace(s: string)
    ensures var r := TrimEnd(s);
      && |r| <= |s| && r == s[..|r|]
      && AllSpace(s[|r|..])
      && (r == [] || !IsSpace(r[|r| - 1]))
  {
    if s != [] && IsSpace(s[|s| - 1]) {
      var n := |s| - 1;
      TrimEndDropsSpace(s[..n]);
      var r := TrimEnd(s[..n]);
      assert s[..n][..|r|] == s[..|r|];
      forall k | 0 <= k < |s| - |r| ensures IsSpace(s[|r|..][k]) {
        if |r| + k < n {
          assert s[|r|..][k] == s[..n][|r|..][k];
        }
      }
    }
  }

  /** `val.replace(/^\s+|\s+$/g, '')`. */
  function Trim(s: string): (r: string)
    ensures Trimmed(r)
  {
    TrimStartDropsSpace(s);
    TrimEndDropsSpace(TrimStart(s));
    TrimEnd(TrimStart(s))
  }

  /** Trim removes white space only: a character that is not white space survives it. */
  lemma TrimKeeps(s: string, k: nat)
    requires k < |s| && !IsSpace(s[k])
    ensures s[k] in Trim(s)
  {
    TrimStartDropsSpace(s);
    TrimEndDropsSpace(TrimStart(s));
    var t := TrimStart(s);
    var off := |s| - |t|;
    assert k >= off;
    assert t[k - off] == s[k];
    var r := TrimEnd(t);
    assert k - off < |r|;
    assert r[k - off] == s[k];
  }

  /** Trim yields the empty string exactly when the input is all white space. */
  lemma TrimEmptyIff(s: string)
    ensures Trim(s) == [] <==> AllSpace(s)
  {
    TrimStartDropsSpace(s);
    TrimEndDropsSpace(TrimStart(s));
    if Trim(s) == [] && !AllSpace(s) {
      var k :| 0 <= k < |s| && !IsSpace(s[k]);
      TrimKeeps(s, k);
    }
  }

  /** Trim leaves text that is already trimmed unchanged, so trimming twice is trimming once. */
  lemma TrimOfTrimmed(s: string)
    requires Trimmed(s)
    ensures Trim(s) == s
  {
    if s != [] {
      assert TrimStart(s) == s;
      assert TrimEnd(s) == s;
    }
  }

  lemma TrimIdempotent(s: string)
    ensures Trim(Trim(s)) == Trim(s)
  {
    TrimOfTrimmed(Trim(s));
  }

  /** Trim takes a contiguous part of its input, so it never introduces a delimiter. */
  lemma TrimDelimiterFree(s: string)
    requires DelimiterFree(s)
    ensures DelimiterFree(Trim(s))
  {
    TrimStartDropsSpace(s);
    TrimEndDropsSpace(TrimStart(s));
    var t := TrimStart(s);
    var off := |s| - |t|;
    assert t == s[off..];
    var r := TrimEnd(t);
    assert r == t[..|r|];
    forall k | 0 <= k < |r| ensures !IsDelimiter(r[k]) {
      calc {
        r[k];
        t[..|r|][k];
        t[k];
        s[off..][k];
        s[off + k];
      }
    }
  }

  /** `value.split(/[\n\r,]+/)`: the pieces between maximal runs of delimiters,
      with an empty piece before a leading run and after a trailing run; the
      empty string splits into one empty piece. */
  function Split(s: string): (pieces: seq<string>)
    ensures |pieces| >= 1
    ensures forall i :: 0 <= i < |pieces| ==> DelimiterFree(pieces[i])
  {
    if s == [] then [""]
    else if !IsDelimiter(s[0]) then
      var rest := Split(s[1..]);
      [[s[0]] + rest[0]] + rest[1..]
    else if |s| > 1 && IsDelimiter(s[1]) then Split(s[1..])
    else [""] + Split(s[1..])
  }

  function Concat(parts: seq<string>): string {
    if parts == [] then "" else parts[0] + Concat(parts[1..])
  }

  function DropDelimiters(s: string): string {
    if s == [] then "" else (if IsDelimiter(s[0]) then "" else [s[0]]) + DropDelimiters(s[1..])
  }

  /** The pieces hold exactly the non-delimiter characters of the input, in order. */
  lemma {:induction false} SplitLosesOnlyDelimiters(s: string)
    ensures Concat(Split(s)) == DropDelimiters(s)
  {
    if s != [] {
      SplitLosesOnlyDelimiters(s[1..]);
      var rest := Split(s[1..]);
      if !IsDelimiter(s[0]) {
        assert Concat(rest) == rest[0] + Concat(rest[1..]);
        assert Split(s)[1..] == rest[1..];
        calc {
          Concat(Split(s));
          ([s[0]] + rest[0]) + Concat(rest[1..]);
          [s[0]] + (rest[0] + Concat(rest[1..]));
          [s[0]] + DropDelimiters(s[1..]);
        }
      } else if |s| > 1 && IsDelimiter(s[1]) {
      } else {
        assert ([""] + rest)[1..] == rest;
      }
    }
  }

  /** `parts.join(sep)`. */
  function Join(parts: seq<string>, sep: string): string {
    if |parts| == 0 then ""
    else if |parts| == 1 then parts[0]
    else parts[0] + sep + Join(parts[1..], sep)
  }

  /** What `syncToTextarea` writes: the item texts joined by newlines, with no trailing newline. */
  function Serialize(items: seq<string>): string {
    Join(items, "\n")
  }

  /** Trims each piece and drops the pieces that trim to nothing (the effect of
      pushing the pieces one by one). */
  function TrimmedNonEmpty(pieces: seq<string>): (items: seq<string>)
    ensures |items| <= |pieces|
    ensures forall i :: 0 <= i < |items| ==> IsItemText(items[i])
  {
    if pieces == [] then []
    else
      var t := Trim(pieces[|pieces| - 1]);
      TrimmedNonEmpty(pieces[..|pieces| - 1]) + (if t == "" then [] else [t])
  }

  /** What `syncFromTextarea` makes of the textarea's value. */
  function Parse(s: string): seq<string> {
    TrimmedNonEmpty(Split(s))
  }

  /** Every parsed item is non-empty, trimmed and free of delimiters. */
  lemma {:induction false} TrimmedNonEmptyDelimiterFree(pieces: seq<string>)
    requires forall i :: 0 <= i < |pieces| ==> DelimiterFree(pieces[i])
    ensures forall i :: 0 <= i < |TrimmedNonEmpty(pieces)| ==> DelimiterFree(TrimmedNonEmpty(pieces)[i])
  {
    if pieces != [] {
      TrimmedNonEmptyDelimiterFree(pieces[..|pieces| - 1]);
      TrimDelimiterFree(pieces[|pieces| - 1]);
    }
  }

  lemma ParsedItemsAreClean(s: string)
    ensures forall i :: 0 <= i < |Parse(s)| ==>
      IsItemText(Parse(s)[i]) && DelimiterFree(Parse(s)[i])
  {
    TrimmedNonEmptyDelimiterFree(Split(s));
  }

  /** Adding a piece at the end adds at most its trimmed text at the end. */
  lemma TrimmedNonEmptySnoc(pieces: seq<string>, p: string)
    ensures TrimmedNonEmpty(pieces + [p]) ==
      TrimmedNonEmpty(pieces) + (if Trim(p) == "" then [] else [Trim(p)])
  {
    assert (pieces + [p])[..|pieces|] == pieces;
  }

  lemma {:induction false} TrimmedNonEmptyKeepsClean(items: seq<string>)
    requires forall i :: 0 <= i < |items| ==> IsItemText(items[i])
    ensures TrimmedNonEmpty(items) == items
  {
    if items != [] {
      var n := |items| - 1;
      var init, last := items[..n], items[n];
      assert init + [last] == items;
      TrimmedNonEmptyKeepsClean(init);
      TrimOfTrimmed(last);
      TrimmedNonEmptySnoc(init, last);
    }
  }


  /** Text made of delimiters only. */
  predicate AllDelimiters(s: string) {
    forall k :: 0 <= k < |s| ==> IsDelimiter(s[k])
  }

  /** A word without delimiters is not cut: it is the one piece. */
  lemma {:induction false} SplitWord(w: string)
    requires DelimiterFree(w)
    ensures Split(w) == [w]
  {
    if w != [] {
      SplitWord(w[1..]);
      assert [w[0]] + w[1..] == w;
    }
  }

  /** A maximal run of delimiters at the front makes one empty piece: the
      cut falls once, however long the run. */
  lemma {:induction false} SplitRun(r: string, b: string)
    requires r != [] && AllDelimiters(r)
    requires b == [] || !IsDelimiter(b[0])
    ensures Split(r + b) == [""] + Split(b)
  {
    var s := r + b;
    assert s[1..] == r[1..] + b;
    if |r| > 1 {
      assert s[1] == r[1];
      SplitRun(r[1..], b);
    } else {
      assert s[1..] == b;
      assert |s| > 1 ==> s[1] == b[0];
    }
  }

  /** One cut per maximal run of delimiters: a word, a run and the rest give
      the word as a piece, followed by the pieces of the rest. */
  lemma {:induction false} SplitCut(a: string, r: string, b: string)
    requires DelimiterFree(a)
    requires r != [] && AllDelimiters(r)
    requires b == [] || !IsDelimiter(b[0])
    ensures Split(a + r + b) == [a] + Split(b)
  {
    SplitRun(r, b);
    SplitAfterWord(a, r + b);
    assert a + r + b == a + (r + b);
    assert a + "" == a;
  }

  /** A run of delimiters at the end leaves an empty last piece. */
  lemma SplitTrailingRun(a: string, r: string)
    requires DelimiterFree(a)
    requires r != [] && AllDelimiters(r)
    ensures Split(a + r) == [a, ""]
  {
    SplitCut(a, r, "");
    assert a + r + "" == a + r;
  }

  /** Delimiter runs between words that do not start with a delimiter cut the text into exactly those words. */
  lemma {:induction false} SplitTwoWords(c: string, r: string, d: string)
    requires DelimiterFree(c) && DelimiterFree(d)
    requires r != [] && AllDelimiters(r)
    requires d != [] && !IsDelimiter(d[0])
    ensures Split(c + r + d) == [c, d]
  {
    SplitWord(d);
    SplitCut(c, r, d);
  }

  lemma {:induction false} SplitThreeWords(b: string, r2: string, c: string, r3: string, d: string)
    requires DelimiterFree(b) && DelimiterFree(c) && DelimiterFree(d)
    requires r2 != [] && AllDelimiters(r2) && r3 != [] && AllDelimiters(r3)
    requires c != [] && !IsDelimiter(c[0]) && d != [] && !IsDelimiter(d[0])
    ensures Split(b + r2 + c + r3 + d) == [b, c, d]
  {
    var t := c + r3 + d;
    SplitTwoWords(c, r3, d);
    assert t[0] == c[0];
    SplitCut(b, r2, t);
    assert b + r2 + t == b + r2 + c + r3 + d;
  }

  lemma {:induction false} SplitFourWords(a: string, r1: string, b: string, r2: string, c: string, r3: string, d: string)
    requires DelimiterFree(a) && DelimiterFree(b) && DelimiterFree(c) && DelimiterFree(d)
    requires r1 != [] && AllDelimiters(r1) && r2 != [] && AllDelimiters(r2) && r3 != [] && AllDelimiters(r3)
    requires b != [] && !IsDelimiter(b[0]) && c != [] && !IsDelimiter(c[0]) && d != [] && !IsDelimiter(d[0])
    ensures Split(a + r1 + b + r2 + c + r3 + d) == [a, b, c, d]
  {
    var t := b + r2 + c + r3 + d;
    SplitThreeWords(b, r2, c, r3, d);
    assert t[0] == b[0];
    SplitCut(a, r1, t);
    assert a + r1 + t == a + r1 + b + r2 + c + r3 + d;
  }

  lemma SplitExample()
    ensures Split("a, b,,  c\nd") == ["a", " b", "  c", "d"]
  {
    assert "a, b,,  c\nd" == "a" + "," + " b" + ",," + "  c" + "\n" + "d";
    SplitFourWords("a", ",", " b", ",,", "  c", "\n", "d");
  }

  lemma TrimExample()
    ensures Trim("a") == "a" && Trim(" b") == "b" && Trim("  c") == "c" && Trim("d") == "d"
  {
    TrimOfTrimmed("a");
    TrimOfTrimmed("d");
    assert " b"[1..] == "b";
    assert "  c"[1..] == " c" && " c"[1..] == "c";
  }

  lemma {:induction false} TrimmedNonEmptyFour(p0: string, p1: string, p2: string, p3: string)
    requires Trim(p0) != "" && Trim(p1) != "" && Trim(p2) != "" && Trim(p3) != ""
    ensures TrimmedNonEmpty([p0, p1, p2, p3]) == [Trim(p0), Trim(p1), Trim(p2), Trim(p3)]
  {
    var q1 := [p0];
    assert TrimmedNonEmpty(q1) == [Trim(p0)] by {
      assert q1 == [] + [p0];
      TrimmedNonEmptySnoc([], p0);
    }
    var q2 := q1 + [p1];
    assert TrimmedNonEmpty(q2) == [Trim(p0), Trim(p1)] by {
      TrimmedNonEmptySnoc(q1, p1);
    }
    var q3 := q2 + [p2];
    assert TrimmedNonEmpty(q3) == [Trim(p0), Trim(p1), Trim(p2)] by {
      TrimmedNonEmptySnoc(q2, p2);
    }
    var q4 := q3 + [p3];
    assert TrimmedNonEmpty(q4) == [Trim(p0), Trim(p1), Trim(p2), Trim(p3)] by {
      TrimmedNonEmptySnoc(q3, p3);
    }
    assert q4 == [p0, p1, p2, p3];
  }

  /** The textarea value `a, b,,  c` followed by a newline and `d` is read
      as the four items a, b, c and d: the double comma is one cut and the
      spaces are trimmed. */
  lemma ParseExample()
    ensures Parse("a, b,,  c\nd") == ["a", "b", "c", "d"]
  {
    SplitExample();
    TrimExample();
    TrimmedNonEmptyFour("a", " b", "  c", "d");
  }

  /** Splitting text that starts with a delimiter-free word glues the word onto the first piece. */
  lemma {:induction false} SplitAfterWord(a: string, t: string)
    requires DelimiterFree(a)
    ensures Split(a + t) == [a + Split(t)[0]] + Split(t)[1..]
  {
    if a != [] {
      assert (a + t)[0] == a[0] && !IsDelimiter(a[0]);
      assert (a + t)[1..] == a[1..] + t;
      SplitAfterWord(a[1..], t);
      var rest := Split(a[1..] + t);
      assert rest[0] == a[1..] + Split(t)[0];
      assert rest[1..] == Split(t)[1..];
      assert Split(a + t) == [[a[0]] + rest[0]] + rest[1..];
      assert [a[0]] + (a[1..] + Split(t)[0]) == a + Split(t)[0];
    } else {
      assert a + t == t && a + Split(t)[0] == Split(t)[0];
      assert [Split(t)[0]] + Split(t)[1..] == Split(t);
    }
  }

  /** Splitting the newline join of clean items gives the items back. */
  lemma {:induction false} SplitSerialize(items: seq<string>)
    requires |items| >= 1
    requires forall i :: 0 <= i < |items| ==> items[i] != [] && DelimiterFree(items[i])
    ensures Split(Serialize(items)) == items
  {
    if |items| == 1 {
      SplitAfterWord(items[0], "");
      assert items[0] + "" == items[0];
    } else {
      var rest := Serialize(items[1..]);
      SplitSerialize(items[1..]);
      assert rest[0] == items[1][0];
      assert Split("\n" + rest) == [""] + Split(rest);
      assert Serialize(items) == items[0] + ("\n" + rest);
      SplitAfterWord(items[0], "\n" + rest);
      assert items[0] + "" == items[0];
    }
  }

  /** Re-parsing what `syncToTextarea` writes reproduces the item list, provided
      every item is trimmed, non-empty and free of delimiters. */
  lemma ParseSerializeRoundTrip(items: seq<string>)
    requires forall i :: 0 <= i < |items| ==> IsItemText(items[i]) && DelimiterFree(items[i])
    ensures Parse(Serialize(items)) == items
  {
    if items == [] {
      assert Split("") == [""];
      assert Trim("") == "";
    } else {
      SplitSerialize(items);
      TrimmedNonEmptyKeepsClean(items);
    }
  }

  /** Parsing normalises: writing the parsed items back and parsing again changes nothing. */
  lemma ParseIdempotent(s: string)
    ensures Parse(Serialize(Parse(s))) == Parse(s)
  {
    ParsedItemsAreClean(s);
    ParseSerializeRoundTrip(Parse(s));
  }

}
