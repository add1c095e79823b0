/** The `.env` reader and the rewriter that must agree with it on which line sets which key. */
module Dotenv {
  import opened Options
  import opened Text

  const EXPORT := "export "

  /** The position of the first `=`. */
  function IndexOfEq(s: string): (i: nat)
    requires '=' in s
    ensures i < |s| && s[i] == '=' && '=' !in s[..i]
  {
    if s[0] == '=' then 0
    else
      var i := 1 + IndexOfEq(s[1..]);
      assert s[..i] == [s[0]] + s[1..][..i - 1];
      i
  }

  // ---------- The reader ----------

  function ParseLine(raw: string): Option<(string, string)> {
    ParseStripped(Strip(raw))
  }

  function ParseStripped(line: string): Option<(string, string)> {
    if line == "" || line[0] == '#' then None
    else ParseBody(if EXPORT <= line then Strip(line[7..]) else line)
  }

  function ParseBody(body: string): Option<(string, string)> {
    if '=' !in body then None
    else
      var i := IndexOfEq(body);
      Some((Strip(body[..i]), TrimChar(TrimChar(Strip(body[i + 1..]), '"'), '\'')))
  }

  function ParseLines(lines: seq<string>): map<string, string> {
    if lines == [] then map[]
    else
      var n := |lines| - 1;
      var m := ParseLines(lines[..n]);
      WithLine(m, ParseLine(lines[n]))
  }

  function WithLine(m: map<string, string>, parsed: Option<(string, string)>): map<string, string> {
    match parsed
    case None => m
    case Some(kv) => m[kv.0 := kv.1]
  }

  lemma ParseLinesSnoc(lines: seq<string>, last: string)
    ensures ParseLines(lines + [last]) == WithLine(ParseLines(lines), ParseLine(last))
  {
    assert (lines + [last])[..|lines|] == lines;
  }

  function Parse(text: string): map<string, string> {
    ParseLines(SplitLines(text))
  }

  method ParseDotenv(text: string) returns (out: map<string, string>)
    ensures out == Parse(text)
  {
    var lines := SplitLines(text);
    out := map[];
    for i := 0 to |lines|
      invariant out == ParseLines(lines[..i])
    {
      ParseLinesSnoc(lines[..i], lines[i]);
      assert lines[..i + 1] == lines[..i] + [lines[i]];
      out := ReadLine(lines[i], out);
    }
    assert lines[..|lines|] == lines;
  }

  method ReadLine(raw: string, out: map<string, string>) returns (more: map<string, string>)
    ensures more == WithLine(out, ParseLine(raw))
  {
    var line := Strip(raw);
    if line == "" || line[0] == '#' { return out; }
    if EXPORT <= line { line := Strip(line[7..]); }
    more := ReadBody(line, out);
  }

  method ReadBody(line: string, out: map<string, string>) returns (more: map<string, string>)
    ensures more == WithLine(out, ParseBody(line))
  {
    if '=' !in line { return out; }
    var eq := IndexOfEq(line);
    var key := Strip(line[..eq]);
    var val := TrimChar(TrimChar(Strip(line[eq + 1..]), '"'), '\'');
    more := out[key := val];
  }

  // ---------- The rewriter ----------

  function LineKey(line: string): Option<string> {
    StrippedKey(Strip(line))
  }

  function StrippedKey(s: string): Option<string> {
    if s == "" || s[0] == '#' || '=' !in s then None
    else KeyBeforeEq(s[..IndexOfEq(s)])
  }

  function KeyBeforeEq(left: string): Option<string> {
    var k := Strip(left);
    var key := if EXPORT <= k then Strip(k[7..]) else k;
    if key == "" then None else Some(key)
  }

  function Assignment(k: string, v: string): string {
    k + "=" + v
  }

  predicate Updates(line: string, updates: map<string, string>) {
    LineKey(line).Some? && LineKey(line).value in updates
  }

  function Rewrite(line: string, updates: map<string, string>): string {
    if Updates(line, updates) then Assignment(LineKey(line).value, updates[LineKey(line).value]) else line
  }

  function RewriteAll(lines: seq<string>, updates: map<string, string>): (r: seq<string>)
    ensures |r| == |lines|
  {
    seq(|lines|, i requires 0 <= i < |lines| => Rewrite(lines[i], updates))
  }

  function Seen(lines: seq<string>, updates: map<string, string>): set<string> {
    set line | line in lines && Updates(line, updates) :: LineKey(line).value
  }

  /** The updates no line was rewritten for, in the order of the dictionary. */
  function Missing(order: seq<string>, updates: map<string, string>, seen: set<string>): seq<string>
    requires forall i :: 0 <= i < |order| ==> order[i] in updates
  {
    if order == [] then []
    else
      var n := |order| - 1;
      Missing(order[..n], updates, seen)
        + if order[n] in seen then [] else [Assignment(order[n], updates[order[n]])]
  }

  function MergeLines(lines: seq<string>, order: seq<string>, updates: map<string, string>): seq<string>
    requires forall i :: 0 <= i < |order| ==> order[i] in updates
  {
    RewriteAll(lines, updates) + Missing(order, updates, Seen(lines, updates))
  }

  function Merge(text: string, order: seq<string>, updates: map<string, string>): string
    requires forall i :: 0 <= i < |order| ==> order[i] in updates
  {
    RStrip(Join(MergeLines(SplitLines(text), order, updates))) + "\n"
  }

  lemma RewriteSnoc(lines: seq<string>, last: string, updates: map<string, string>)
    ensures RewriteAll(lines + [last], updates) == RewriteAll(lines, updates) + [Rewrite(last, updates)]
    ensures Seen(lines + [last], updates)
         == if Updates(last, updates) then Seen(lines, updates) + {LineKey(last).value} else Seen(lines, updates)
  {
    assert forall line :: line in lines + [last] <==> line in lines || line == last;
  }

  lemma MissingSnoc(prefix: seq<string>, k: string, updates: map<string, string>, seen: set<string>)
    requires k in updates && forall i :: 0 <= i < |prefix| ==> prefix[i] in updates
    ensures var most := Missing(prefix, updates, seen);
      Missing(prefix + [k], updates, seen) == if k in seen then most else most + [Assignment(k, updates[k])]
  {
    assert (prefix + [k])[..|prefix|] == prefix;
  }

  /** `order` lists the keys of the dictionary `updates`. */
  method MergeWriteEnv(existing: Option<string>, template: string, order: seq<string>, updates: map<string, string>)
    returns (text: string)
    requires forall i :: 0 <= i < |order| ==> order[i] in updates
    ensures text == Merge(if existing.Some? then existing.value else template, order, updates)
  {
    var lines := SplitLines(if existing.Some? then existing.value else template);
    var newLines: seq<string> := [];
    var seen: set<string> := {};
    for i := 0 to |lines|
      invariant newLines == RewriteAll(lines[..i], updates)
      invariant seen == Seen(lines[..i], updates)
    {
      newLines, seen := RewriteNext(lines, i, updates, newLines, seen);
    }
    assert lines[..|lines|] == lines;
    newLines := AppendMissing(newLines, order, updates, seen);
    text := RStrip(Join(newLines)) + "\n";
  }

  method RewriteNext(lines: seq<string>, i: nat, updates: map<string, string>, before: seq<string>, seen: set<string>)
    returns (newLines: seq<string>, nowSeen: set<string>)
    requires i < |lines| && before == RewriteAll(lines[..i], updates) && seen == Seen(lines[..i], updates)
    ensures newLines == RewriteAll(lines[..i + 1], updates) && nowSeen == Seen(lines[..i + 1], updates)
  {
    assert lines[..i + 1] == lines[..i] + [lines[i]];
    RewriteSnoc(lines[..i], lines[i], updates);
    var k := LineKey(lines[i]);
    if k.Some? && k.value in updates {
      newLines, nowSeen := before + [Assignment(k.value, updates[k.value])], seen + {k.value};
    } else {
      newLines, nowSeen := before + [lines[i]], seen;
    }
  }

  method AppendMissing(lines: seq<string>, order: seq<string>, updates: map<string, string>, seen: set<string>)
    returns (newLines: seq<string>)
    requires forall i :: 0 <= i < |order| ==> order[i] in updates
    ensures newLines == lines + Missing(order, updates, seen)
  {
    newLines := lines;
    for i := 0 to |order|
      invariant newLines == lines + Missing(order[..i], updates, seen)
    {
      assert order[..i + 1] == order[..i] + [order[i]];
      MissingSnoc(order[..i], order[i], updates, seen);
      if order[i] !in seen { newLines := newLines + [Assignment(order[i], updates[order[i]])]; }
    }
    assert order[..|order|] == order;
  }

  // ---------- Where the two agree on a line ----------

  /** A stripped line the reader gives the empty key to, after dropping `export `. */
  predicate StrippedBareExport(s: string) {
    EXPORT <= s && ParseStripped(s).Some? && ParseStripped(s).value.0 == ""
  }

  lemma {:induction false} IndexOfEqConcat(a: string, b: string)
    requires '=' !in a
    ensures '=' in a + "=" + b && IndexOfEq(a + "=" + b) == |a|
  {
    if a == "" {
      assert a + "=" + b == "=" + b;
    } else {
      assert (a + "=" + b)[1..] == a[1..] + "=" + b;
      IndexOfEqConcat(a[1..], b);
    }
  }

  /** A stripped line with `export `: what both functions see of it. */
  lemma ExportedLine(s: string, rest: string, b: string)
    requires s == EXPORT + rest + "=" + b && '=' !in rest && Strip(s) == s
    ensures Strip(s[7..]) == LStrip(rest) + "=" + b
    ensures '=' !in LStrip(rest)
  {
    var tail := "=" + b;
    assert s[7..] == rest + tail;
    StripIgnoresRight(s);
    assert s[|s| - 1] == tail[|b|];
    StripToEq(rest, tail);
    LStripSuffix(rest);
  }

  lemma StripToEq(rest: string, tail: string)
    requires tail != "" && tail[0] == '=' && !IsSpace(tail[|tail| - 1])
    ensures Strip(rest + tail) == LStrip(rest) + tail
  {
    assert !IsSpace('=') && LStrip(tail) == tail && RStrip(tail) == tail;
    LStripConcat(rest, tail);
    assert LStrip(rest + tail) == LStrip(rest) + tail;
    RStripConcat(LStrip(rest), tail);
  }

  lemma ExportedLeft(rest: string)
    ensures Strip(EXPORT + rest) == if RStrip(rest) == "" then "export" else EXPORT + RStrip(rest)
  {
    ExportStripped();
    RStripConcat(EXPORT, rest);
    KeepsLeft(EXPORT + rest);
  }

  lemma KeepsLeft(s: string)
    requires s != "" && s[0] == 'e'
    ensures LStrip(s) == s
  {
    assert !IsSpace('e');
  }

  lemma ExportStripped()
    ensures RStrip(EXPORT) == "export"
  {
    assert EXPORT[..6] == "export" && !IsSpace('t') && RStrip("export") == "export";
  }

  lemma {:induction false} LStripSuffix(s: string)
    ensures forall c :: c in LStrip(s) ==> c in s
  {
    if s != "" && IsSpace(s[0]) { LStripSuffix(s[1..]); }
  }

  predicate SameKey(s: string) {
    StrippedKey(s) ==
      if ParseStripped(s).None? then None
      else if StrippedBareExport(s) then Some("export")
      else if ParseStripped(s).value.0 == "" then None
      else Some(ParseStripped(s).value.0)
  }

  lemma SameKeyPlain(s: string)
    requires Strip(s) == s && s != "" && s[0] != '#' && '=' in s && !(EXPORT <= s)
    ensures SameKey(s)
  {
    var a := s[..IndexOfEq(s)];
    StripIgnoresRight(s);
    assert a != "" ==> a[0] == s[0] && LStrip(a) == a;
    assert RStrip(a) <= a <= s;
    assert Strip(a) == RStrip(a);
  }

  /** An exported line in parts: `rest` up to the `=`, `b` after it. */
  lemma ExportedParts(s: string) returns (rest: string, b: string)
    requires '=' in s && EXPORT <= s
    ensures s == EXPORT + rest + "=" + b && '=' !in rest && s[..IndexOfEq(s)] == EXPORT + rest
  {
    var i := IndexOfEq(s);
    ExportPrefixOfKey(s, i);
    rest, b := s[7..i], s[i + 1..];
    assert s[..i] == EXPORT + rest;
    assert forall j :: 0 <= j < |rest| ==> rest[j] == s[..i][j + 7];
  }

  lemma ParsedExported(s: string, rest: string, b: string)
    requires Strip(s) == s && s == EXPORT + rest + "=" + b && '=' !in rest
    ensures ParseStripped(s).Some? && ParseStripped(s).value.0 == Strip(rest)
  {
    ExportedLine(s, rest, b);
    IndexOfEqConcat(LStrip(rest), b);
    var body := LStrip(rest) + "=" + b;
    assert body[..|LStrip(rest)|] == LStrip(rest);
    StripIgnoresRight(rest);
    assert s[0] == 'e' && EXPORT <= s;
  }

  lemma KeyedExported(rest: string)
    ensures KeyBeforeEq(EXPORT + rest) == if Strip(rest) == "" then Some("export") else Some(Strip(rest))
  {
    ExportedLeft(rest);
    StripIgnoresRight(rest);
    StripEmpty(rest);
    if RStrip(rest) == "" {
      assert |"export"| < |EXPORT|;
    } else {
      assert (EXPORT + RStrip(rest))[7..] == RStrip(rest);
    }
  }

  lemma SameKeyExported(s: string)
    requires Strip(s) == s && '=' in s && EXPORT <= s
    ensures SameKey(s)
  {
    var rest, b := ExportedParts(s);
    ParsedExported(s, rest, b);
    KeyedExported(rest);
    assert s[0] == 'e';
  }

  /** Reader and rewriter name the same key on every line but the bare exports. */
  lemma SameKeyOnEveryLine(line: string)
    ensures SameKey(Strip(line))
  {
    var s := Strip(line);
    StripTwice(line);
    if s != "" && s[0] != '#' {
      if '=' in s {
        if EXPORT <= s { SameKeyExported(s); } else { SameKeyPlain(s); }
      } else {
        if EXPORT <= s { NoEqAfterStrip(s[7..]); }
      }
    }
  }

  lemma ExportPrefixOfKey(s: string, i: nat)
    requires EXPORT <= s && i < |s| && s[i] == '='
    ensures i >= 7 && EXPORT <= s[..i]
  {
    assert forall j :: 0 <= j < 7 ==> s[j] == EXPORT[j] && EXPORT[j] != '=';
  }

  lemma NoEqAfterStrip(s: string)
    requires '=' !in s
    ensures '=' !in Strip(s)
  {
    LStripSuffix(s);
    assert forall c :: c in RStrip(LStrip(s)) ==> c in LStrip(s);
  }

  lemma StripTwice(s: string)
    ensures Strip(Strip(s)) == Strip(s)
  {
    StripIgnoresRight(s);
    var r := Strip(s);
    assert r != "" ==> LStrip(r) == r && RStrip(r) == r;
  }

  lemma StripEmpty(s: string)
    ensures Strip(s) == "" <==> RStrip(s) == ""
  {
    StripCommutes(s);
    if RStrip(s) != "" {
      var r := RStrip(s);
      assert r == r[..|r| - 1] + [r[|r| - 1]];
      LStripConcat(r[..|r| - 1], [r[|r| - 1]]);
      assert [r[|r| - 1]][1..] == "";
    }
  }

}
