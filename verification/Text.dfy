/** Strings the way Python's `strip`, `splitlines` and `join` treat them. */
module Text {

  predicate IsSpace(c: char) {
    || '\t' <= c <= '\r' || '\U{1C}' <= c <= ' ' || c == '\U{85}' || c == '\U{A0}' || c == '\U{1680}'
    || '\U{2000}' <= c <= '\U{200A}' || c == '\U{2028}' || c == '\U{2029}' || c == '\U{202F}'
    || c == '\U{205F}' || c == '\U{3000}'
  }

  predicate IsBreak(c: char) {
    '\n' <= c <= '\r' || '\U{1C}' <= c <= '\U{1E}' || c == '\U{85}' || c == '\U{2028}' || c == '\U{2029}'
  }

  function LStrip(s: string): (r: string)
    ensures r != "" ==> !IsSpace(r[0])
  {
    if s != "" && IsSpace(s[0]) then LStrip(s[1..]) else s
  }

  function RStrip(s: string): (r: string)
    ensures r <= s && (r != "" ==> !IsSpace(r[|r| - 1]))
  {
    if s != "" && IsSpace(s[|s| - 1]) then RStrip(s[..|s| - 1]) else s
  }

  function Strip(s: string): string {
    RStrip(LStrip(s))
  }

  function TrimChar(s: string, c: char): string {
    TrimRight(TrimLeft(s, c), c)
  }

  function TrimLeft(s: string, c: char): string {
    if s != "" && s[0] == c then TrimLeft(s[1..], c) else s
  }

  function TrimRight(s: string, c: char): string {
    if s != "" && s[|s| - 1] == c then TrimRight(s[..|s| - 1], c) else s
  }

  // ---------- Stripping a concatenation ----------

  lemma {:induction false} RStripConcat(a: string, b: string)
    ensures RStrip(a + b) == if RStrip(b) == "" then RStrip(a) else a + RStrip(b)
    decreases |b|
  {
    if b == "" {
      assert a + b == a;
    } else if IsSpace(b[|b| - 1]) {
      assert (a + b)[..|a + b| - 1] == a + b[..|b| - 1];
      RStripConcat(a, b[..|b| - 1]);
    }
  }

  lemma {:induction false} LStripConcat(a: string, b: string)
    ensures LStrip(a + b) == if LStrip(a) == "" then LStrip(b) else LStrip(a) + b
    decreases |a|
  {
    if a == "" {
      assert a + b == b;
    } else if IsSpace(a[0]) {
      assert (a + b)[1..] == a[1..] + b;
      LStripConcat(a[1..], b);
    }
  }

  /** The two ends are stripped independently. */
  lemma {:induction false} StripCommutes(s: string)
    ensures LStrip(RStrip(s)) == RStrip(LStrip(s))
    decreases |s|
  {
    if s != "" {
      assert s == [s[0]] + s[1..];
      RStripConcat([s[0]], s[1..]);
      assert [s[0]][..0] == "";
      if IsSpace(s[0]) {
        StripCommutes(s[1..]);
        if RStrip(s[1..]) != "" {
          assert RStrip(s)[1..] == RStrip(s[1..]);
        }
      }
    }
  }

  lemma StripIgnoresRight(s: string)
    ensures Strip(RStrip(s)) == Strip(s)
    ensures Strip(LStrip(s)) == Strip(s)
    ensures Strip(s) != "" ==> !IsSpace(Strip(s)[0]) && !IsSpace(Strip(s)[|Strip(s)| - 1])
  {
    StripCommutes(s);
    RStripTwice(LStrip(s));
    LStripTwice(s);
  }

  lemma RStripTwice(s: string)
    ensures RStrip(RStrip(s)) == RStrip(s)
  {
  }

  lemma LStripTwice(s: string)
    ensures LStrip(LStrip(s)) == LStrip(s)
  {
  }

  // ---------- Lines ----------

  predicate NoBreaks(s: string) {
    forall i :: 0 <= i < |s| ==> !IsBreak(s[i])
  }

  /** The length of the first line of `s`. */
  function LineLength(s: string): (n: nat)
    ensures n <= |s| && (n < |s| ==> IsBreak(s[n]))
    ensures forall i :: 0 <= i < n ==> !IsBreak(s[i])
  {
    if s == "" || IsBreak(s[0]) then 0 else 1 + LineLength(s[1..])
  }

  function SplitLines(s: string): (r: seq<string>)
    ensures forall i :: 0 <= i < |r| ==> NoBreaks(r[i])
    decreases |s|
  {
    if s == "" then []
    else
      var n := LineLength(s);
      if n == |s| then [s]
      else
        var next := if s[n] == '\r' && n + 1 < |s| && s[n + 1] == '\n' then n + 2 else n + 1;
        [s[..n]] + SplitLines(s[next..])
  }

  function Join(lines: seq<string>): string {
    if lines == [] then ""
    else if |lines| == 1 then lines[0]
    else lines[0] + "\n" + Join(lines[1..])
  }

  lemma {:induction false} LineLengthOf(line: string, rest: string)
    requires NoBreaks(line) && rest != "" && IsBreak(rest[0])
    ensures LineLength(line + rest) == |line|
  {
    if line == "" {
      assert line + rest == rest;
    } else {
      assert (line + rest)[1..] == line[1..] + rest;
      LineLengthOf(line[1..], rest);
    }
  }

  /** Splitting undoes joining. */
  lemma {:induction false} SplitJoin(lines: seq<string>)
    requires lines != [] && forall i :: 0 <= i < |lines| ==> NoBreaks(lines[i])
    ensures SplitLines(Join(lines) + "\n") == lines
    decreases |lines|
  {
    var rest := if |lines| == 1 then "" else Join(lines[1..]) + "\n";
    assert Join(lines) + "\n" == lines[0] + ("\n" + rest);
    SplitFirst(lines[0], rest);
    if |lines| > 1 {
      SplitJoin(lines[1..]);
    }
    assert lines == [lines[0]] + lines[1..];
  }

  /** A line ends at the first break, and a carriage return with a line feed after it is one break. */
  lemma SplitAtBreak(line: string, brk: string, rest: string)
    requires NoBreaks(line)
    requires brk == "\r\n" || (|brk| == 1 && IsBreak(brk[0]) && !(brk == "\r" && rest != "" && rest[0] == '\n'))
    ensures SplitLines(line + (brk + rest)) == [line] + SplitLines(rest)
  {
    var text, n := line + (brk + rest), |line|;
    assert IsBreak('\r');
    LineLengthOf(line, brk + rest);
    assert text[n] == brk[0] && text[..n] == line && text[n + |brk|..] == rest;
    if |brk| == 2 {
      assert text[n + 1] == '\n';
    } else if n + 1 < |text| {
      assert text[n + 1] == rest[0];
    }
  }

  lemma SplitFirst(line: string, rest: string)
    requires NoBreaks(line)
    ensures SplitLines(line + ("\n" + rest)) == [line] + SplitLines(rest)
  {
    var text := line + ("\n" + rest);
    LineLengthOf(line, "\n" + rest);
    assert text[|line|] == '\n';
    assert text[..|line|] == line && text[|line| + 1..] == rest;
  }

  lemma {:induction false} JoinSnoc(lines: seq<string>, last: string)
    requires lines != []
    ensures Join(lines + [last]) == Join(lines) + ("\n" + last)
    decreases |lines|
  {
    assert (lines + [last])[1..] == lines[1..] + [last];
    if |lines| > 1 {
      JoinSnoc(lines[1..], last);
    } else {
      assert lines[1..] + [last] == [last];
    }
  }

  /** What `rstrip` leaves of a joined text: blank lines at the end go, the last line is stripped. */
  function TrimTail(lines: seq<string>): (r: seq<string>)
    ensures lines != [] ==> r != []
    ensures |r| <= |lines|
    ensures forall i :: 0 <= i < |r| - 1 ==> r[i] == lines[i]
    ensures r != [] ==> r[|r| - 1] == RStrip(lines[|r| - 1])
    ensures forall i :: |r| <= i < |lines| ==> RStrip(lines[i]) == ""
    ensures |r| > 1 ==> r[|r| - 1] != ""
  {
    if lines == [] then []
    else
      var n := |lines| - 1;
      if RStrip(lines[n]) == "" && n > 0 then TrimTail(lines[..n]) else lines[..n] + [RStrip(lines[n])]
  }

  lemma {:induction false} RStripJoin(lines: seq<string>)
    ensures RStrip(Join(lines)) == Join(TrimTail(lines))
    decreases |lines|
  {
    if |lines| == 1 {
      assert TrimTail(lines) == [RStrip(lines[0])];
    } else if |lines| > 1 {
      var n := |lines| - 1;
      var front, last := lines[..n], lines[n];
      assert lines == front + [last];
      JoinSnoc(front, last);
      RStripConcat("\n", last);
      RStripConcat(Join(front), "\n" + last);
      assert "\n"[..0] == "" && RStrip("\n") == "";
      if RStrip(last) == "" {
        RStripJoin(front);
      } else {
        JoinSnoc(front, RStrip(last));
      }
    }
  }

}
