/** Merging updates into a `.env` text, and reading the result back. */
module DotenvMerge {
  import opened Options
  import opened Text
  import opened Dotenv

  predicate CleanKey(k: string) {
    k != "" && Strip(k) == k && NoBreaks(k) && '=' !in k && k[0] != '#' && !(EXPORT <= k)
  }

  predicate CleanValue(v: string) {
    && NoBreaks(v) && Strip(v) == v
    && (v != "" ==> v[0] !in {'"', '\''} && v[|v| - 1] !in {'"', '\''})
  }

  /** A dictionary of clean updates, its keys in order. */
  predicate Clean(order: seq<string>, updates: map<string, string>) {
    && (forall i :: 0 <= i < |order| ==> order[i] in updates)
    && (forall k :: k in updates ==> k in order && CleanKey(k) && CleanValue(updates[k]))
  }

  // ---------- One line ----------

  /** A written assignment reads back as itself, and is found again by its key. */
  lemma AssignmentStripped(k: string, v: string)
    requires CleanKey(k) && CleanValue(v)
    ensures Strip(Assignment(k, v)) == Assignment(k, v) == RStrip(Assignment(k, v)) != ""
    ensures NoBreaks(Assignment(k, v)) && !(EXPORT <= Assignment(k, v)) && Assignment(k, v)[0] != '#'
  {
    var line := Assignment(k, v);
    StripIgnoresRight(k);
    StripIgnoresRight(v);
    assert line[0] == k[0];
    assert line[|line| - 1] == if v == "" then '=' else v[|v| - 1];
    assert !IsSpace('=') && !IsBreak('=');
    assert line[|k|] == '=';
    assert forall j :: 0 <= j < |k| ==> line[j] == k[j];
    assert forall j :: 0 <= j < 7 ==> EXPORT[j] != '=';
    assert |k| >= 7 ==> line[..7] == k[..7];
    assert |k| < 7 ==> line[|k|] != EXPORT[|k|];
  }

  lemma AssignmentParses(k: string, v: string)
    requires CleanKey(k) && CleanValue(v)
    ensures ParseLine(Assignment(k, v)) == Some((k, v))
    ensures LineKey(Assignment(k, v)) == Some(k)
  {
    AssignmentStripped(k, v);
    IndexOfEqConcat(k, v);
    var line := Assignment(k, v);
    assert line[..|k|] == k && line[|k| + 1..] == v;
    assert TrimChar(TrimChar(v, '"'), '\'') == v;
  }

  predicate Quote(c: char) {
    c == '"' || c == '\''
  }

  /** A value with no quote at either end; spaces are welcome. */
  predicate Unquoted(v: string) {
    v != "" ==> !Quote(v[0]) && !Quote(v[|v| - 1])
  }

  lemma TrimQuoted(v: string, q: char)
    requires Unquoted(v) && Quote(q)
    ensures TrimChar(TrimChar([q] + v + [q], '"'), '\'') == v
  {
    var quoted := [q] + v + [q];
    assert quoted[1..] == v + [q] && (v + [q])[..|v|] == v;
    assert TrimChar(v, '"') == v && TrimChar(v, '\'') == v;
    TrimEnds(v, q);
    if q == '\'' { assert TrimChar(quoted, '"') == quoted; }
  }

  lemma TrimEnds(v: string, q: char)
    requires v == "" || (v[0] != q && v[|v| - 1] != q)
    ensures TrimChar([q] + v + [q], q) == v
  {
    var quoted := [q] + v + [q];
    assert quoted[1..] == v + [q] && (v + [q])[..|v|] == v;
    if v == "" {
      assert quoted == [q, q] && [q, q][1..] == [q] && [q][1..] == "";
      assert TrimLeft([q], q) == TrimLeft("", q) == "";
      assert TrimLeft(quoted, q) == TrimLeft([q], q) == "";
    } else {
      assert (v + [q])[0] == v[0];
      assert TrimLeft(v + [q], q) == v + [q] && TrimLeft(quoted, q) == v + [q];
      assert TrimRight(v, q) == v && TrimRight(v + [q], q) == v;
    }
  }

  /** A value in quotes of either kind reads as what is between them, spaces included. */
  lemma QuotedReads(k: string, v: string, q: char)
    requires CleanKey(k) && Unquoted(v) && Quote(q)
    ensures ParseLine(k + "=" + ([q] + v + [q])) == Some((k, v))
  {
    var quoted := [q] + v + [q];
    var line := k + "=" + quoted;
    QuotedStripped(k, v, q);
    IndexOfEqConcat(k, quoted);
    assert line[..|k|] == k && line[|k| + 1..] == quoted;
    TrimQuoted(v, q);
  }

  lemma QuotedStripped(k: string, v: string, q: char)
    requires CleanKey(k) && Quote(q)
    ensures var quoted := [q] + v + [q]; var line := k + "=" + quoted;
      Strip(quoted) == quoted && Strip(line) == line != "" && line[0] != '#' && !(EXPORT <= line)
  {
    var quoted := [q] + v + [q];
    var line := k + "=" + quoted;
    StripIgnoresRight(k);
    assert !IsSpace(q) && quoted[0] == q && quoted[|quoted| - 1] == q;
    assert line[0] == k[0] && line[|line| - 1] == q && line[|k|] == '=';
    NoExport(k, quoted);
  }

  lemma NoExport(k: string, rest: string)
    requires CleanKey(k)
    ensures !(EXPORT <= k + "=" + rest)
  {
    var line := k + "=" + rest;
    assert forall j :: 0 <= j < |k| ==> line[j] == k[j];
    assert forall j :: 0 <= j < 7 ==> EXPORT[j] != '=';
    assert |k| >= 7 ==> line[..7] == k[..7];
    assert |k| < 7 ==> line[|k|] != EXPORT[|k|];
  }

  /** Rewriting a line replaces the value the reader gets for an updated key, and nothing else. */
  lemma RewriteParses(line: string, order: seq<string>, updates: map<string, string>)
    requires Clean(order, updates) && "export" !in updates
    ensures ParseLine(Rewrite(line, updates)) ==
      match ParseLine(line)
      case None => None
      case Some(kv) => Some((kv.0, if kv.0 in updates then updates[kv.0] else kv.1))
    ensures Updates(line, updates) <==> ParseLine(line).Some? && ParseLine(line).value.0 in updates
    ensures Updates(line, updates) ==> LineKey(line).value == ParseLine(line).value.0
  {
    SameKeyOnEveryLine(line);
    if Updates(line, updates) {
      var k := LineKey(line).value;
      AssignmentParses(k, updates[k]);
    }
  }

  // ---------- All lines ----------

  function Overridden(m: map<string, string>, updates: map<string, string>): map<string, string> {
    map q | q in m :: if q in updates then updates[q] else m[q]
  }

  lemma OverriddenUpdate(m: map<string, string>, updates: map<string, string>, k: string, v: string)
    ensures Overridden(m[k := v], updates)
         == Overridden(m, updates)[k := if k in updates then updates[k] else v]
  {
  }

  lemma RewriteParsesSnoc(front: seq<string>, last: string, order: seq<string>, updates: map<string, string>)
    requires Clean(order, updates) && "export" !in updates
    requires ParseLines(RewriteAll(front, updates)) == Overridden(ParseLines(front), updates)
    ensures ParseLines(RewriteAll(front + [last], updates)) == Overridden(ParseLines(front + [last]), updates)
  {
    RewriteSnoc(front, last, updates);
    RewriteParses(last, order, updates);
    ParseLinesSnoc(front, last);
    ParseLinesSnoc(RewriteAll(front, updates), Rewrite(last, updates));
    if ParseLine(last).Some? {
      OverriddenUpdate(ParseLines(front), updates, ParseLine(last).value.0, ParseLine(last).value.1);
    }
  }

  lemma {:induction false} RewriteAllParses(lines: seq<string>, order: seq<string>, updates: map<string, string>)
    requires Clean(order, updates) && "export" !in updates
    ensures ParseLines(RewriteAll(lines, updates)) == Overridden(ParseLines(lines), updates)
  {
    if lines == [] {
      assert RewriteAll(lines, updates) == [];
    } else {
      var n := |lines| - 1;
      assert lines == lines[..n] + [lines[n]];
      RewriteAllParses(lines[..n], order, updates);
      RewriteParsesSnoc(lines[..n], lines[n], order, updates);
    }
  }

  lemma {:induction false} SeenAreParsed(lines: seq<string>, order: seq<string>, updates: map<string, string>)
    requires Clean(order, updates) && "export" !in updates
    ensures Seen(lines, updates) == ParseLines(lines).Keys * updates.Keys
  {
    if lines != [] {
      var n := |lines| - 1;
      var front, last := lines[..n], lines[n];
      assert lines == front + [last];
      SeenAreParsed(front, order, updates);
      RewriteSnoc(front, last, updates);
      RewriteParses(last, order, updates);
      ParseLinesSnoc(front, last);
    }
  }

  function Fresh(prefix: seq<string>, updates: map<string, string>, seen: set<string>): map<string, string> {
    map k | k in prefix && k in updates && k !in seen :: updates[k]
  }

  lemma FreshSnoc(prefix: seq<string>, k: string, updates: map<string, string>, seen: set<string>)
    requires k in updates
    ensures Fresh(prefix + [k], updates, seen)
         == if k in seen then Fresh(prefix, updates, seen) else Fresh(prefix, updates, seen)[k := updates[k]]
  {
    assert forall q :: q in prefix + [k] <==> q in prefix || q == k;
  }

  lemma AppendParses(base: seq<string>, k: string, v: string)
    requires CleanKey(k) && CleanValue(v)
    ensures ParseLines(base + [Assignment(k, v)]) == ParseLines(base)[k := v]
  {
    ParseLinesSnoc(base, Assignment(k, v));
    AssignmentParses(k, v);
  }

  lemma Assoc(a: seq<string>, b: seq<string>, c: seq<string>)
    ensures a + (b + c) == (a + b) + c
  {
  }

  lemma AddUpdate(a: map<string, string>, b: map<string, string>, k: string, v: string)
    ensures a + b[k := v] == (a + b)[k := v]
  {
  }

  lemma MissingParsesSnoc(
    lines: seq<string>, front: seq<string>, k: string, order: seq<string>, updates: map<string, string>, seen: set<string>)
    requires Clean(order, updates) && k in updates && forall i :: 0 <= i < |front| ==> front[i] in updates
    requires ParseLines(lines + Missing(front, updates, seen)) == ParseLines(lines) + Fresh(front, updates, seen)
    ensures ParseLines(lines + Missing(front + [k], updates, seen))
         == ParseLines(lines) + Fresh(front + [k], updates, seen)
  {
    var most := Missing(front, updates, seen);
    MissingSnoc(front, k, updates, seen);
    FreshSnoc(front, k, updates, seen);
    if k !in seen {
      var v := updates[k];
      Assoc(lines, most, [Assignment(k, v)]);
      AppendParses(lines + most, k, v);
      AddUpdate(ParseLines(lines), Fresh(front, updates, seen), k, v);
    }
  }

  lemma {:induction false} MissingParses(
    lines: seq<string>, prefix: seq<string>, order: seq<string>, updates: map<string, string>, seen: set<string>)
    requires Clean(order, updates) && forall i :: 0 <= i < |prefix| ==> prefix[i] in updates
    ensures ParseLines(lines + Missing(prefix, updates, seen)) == ParseLines(lines) + Fresh(prefix, updates, seen)
    decreases |prefix|
  {
    if prefix == [] {
      assert lines + [] == lines;
    } else {
      var n := |prefix| - 1;
      assert prefix == prefix[..n] + [prefix[n]];
      MissingParses(lines, prefix[..n], order, updates, seen);
      MissingParsesSnoc(lines, prefix[..n], prefix[n], order, updates, seen);
    }
  }

  lemma OverrideThenFresh(m: map<string, string>, order: seq<string>, updates: map<string, string>)
    requires forall k :: k in updates <==> k in order
    ensures Overridden(m, updates) + Fresh(order, updates, m.Keys * updates.Keys) == m + updates
  {
  }

  lemma MergeLinesParses(lines: seq<string>, order: seq<string>, updates: map<string, string>)
    requires Clean(order, updates) && "export" !in updates
    ensures ParseLines(MergeLines(lines, order, updates)) == ParseLines(lines) + updates
  {
    RewriteAllParses(lines, order, updates);
    SeenAreParsed(lines, order, updates);
    MissingParses(RewriteAll(lines, updates), order, order, updates, Seen(lines, updates));
    OverrideThenFresh(ParseLines(lines), order, updates);
  }

  // ---------- From lines to text ----------

  predicate IsUpdate(line: string, updates: map<string, string>) {
    exists k :: k in updates && line == Assignment(k, updates[k])
  }

  lemma {:induction false} MissingAreAssignments(
    prefix: seq<string>, updates: map<string, string>, seen: set<string>)
    requires forall i :: 0 <= i < |prefix| ==> prefix[i] in updates
    ensures var m := Missing(prefix, updates, seen);
      && (forall i :: 0 <= i < |m| ==> IsUpdate(m[i], updates))
      && (forall k :: k in prefix && k !in seen ==> Assignment(k, updates[k]) in m)
  {
    if prefix != [] {
      MissingAreAssignments(prefix[..|prefix| - 1], updates, seen);
    }
  }

  lemma MergedNoBreaks(lines: seq<string>, order: seq<string>, updates: map<string, string>)
    requires Clean(order, updates) && forall i :: 0 <= i < |lines| ==> NoBreaks(lines[i])
    ensures var m := MergeLines(lines, order, updates); forall i :: 0 <= i < |m| ==> NoBreaks(m[i])
  {
    var m := MergeLines(lines, order, updates);
    MissingAreAssignments(order, updates, Seen(lines, updates));
    forall i | 0 <= i < |m| ensures NoBreaks(m[i]) {
      if i < |lines| {
        if Updates(lines[i], updates) {
          var k := LineKey(lines[i]).value;
          AssignmentStripped(k, updates[k]);
        }
      } else {
        var k :| k in updates && m[i] == Assignment(k, updates[k]);
        AssignmentStripped(k, updates[k]);
      }
    }
  }

  lemma {:induction false} TrimTailParses(lines: seq<string>)
    ensures ParseLines(TrimTail(lines)) == ParseLines(lines)
  {
    if lines != [] {
      var n := |lines| - 1;
      StripIgnoresRight(lines[n]);
      StripEmpty(lines[n]);
      if RStrip(lines[n]) == "" && n > 0 {
        TrimTailParses(lines[..n]);
      } else {
        ParseLinesSnoc(lines[..n], RStrip(lines[n]));
      }
    }
  }

  lemma EmptyTextLines()
    ensures SplitLines("\n") == [""]
  {
    assert LineLength("\n") == 0 && "\n"[1..] == "" && "\n"[..0] == "";
  }

  lemma TrimTailNoBreaks(lines: seq<string>)
    requires forall i :: 0 <= i < |lines| ==> NoBreaks(lines[i])
    ensures var t := TrimTail(lines); forall i :: 0 <= i < |t| ==> NoBreaks(t[i])
  {
    var t := TrimTail(lines);
    forall i | 0 <= i < |t| ensures NoBreaks(t[i]) {
      assert t[i] <= lines[i];
      forall j | 0 <= j < |t[i]| ensures !IsBreak(t[i][j]) { assert t[i][j] == lines[i][j]; }
    }
  }

  /** The lines of a written text are the merged lines without the blank end. */
  lemma WrittenLines(lines: seq<string>)
    requires forall i :: 0 <= i < |lines| ==> NoBreaks(lines[i])
    ensures SplitLines(RStrip(Join(lines)) + "\n") == if lines == [] then [""] else TrimTail(lines)
  {
    if lines == [] {
      EmptyTextLines();
      assert RStrip(Join(lines)) + "\n" == "\n";
    } else {
      RStripJoin(lines);
      TrimTailNoBreaks(lines);
      SplitJoin(TrimTail(lines));
    }
  }

  lemma MergeReadsAsLines(text: string, order: seq<string>, updates: map<string, string>)
    requires Clean(order, updates)
    ensures Parse(Merge(text, order, updates)) == ParseLines(MergeLines(SplitLines(text), order, updates))
  {
    var m := MergeLines(SplitLines(text), order, updates);
    MergedNoBreaks(SplitLines(text), order, updates);
    WrittenLines(m);
    TrimTailParses(m);
    if m == [] { assert [""][..0] == [] && Strip("") == ""; }
  }

  /** Reading a merged text gives the old reading overridden by the updates. */
  lemma MergeOverrides(text: string, order: seq<string>, updates: map<string, string>)
    requires Clean(order, updates) && "export" !in updates
    ensures Parse(Merge(text, order, updates)) == Parse(text) + updates
  {
    MergeReadsAsLines(text, order, updates);
    MergeLinesParses(SplitLines(text), order, updates);
  }

  // ---------- What else the text keeps ----------

  /** Comments, blank lines and lines without `=` set no key. */
  lemma SetsNoKey(line: string)
    requires Strip(line) == "" || Strip(line)[0] == '#' || '=' !in line
    ensures LineKey(line).None?
  {
    if '=' !in line { NoEqAfterStrip(line); }
  }

  /** The key is not set by any of the lines. */
  predicate NotSet(lines: seq<string>, k: string) {
    forall i :: 0 <= i < |lines| ==> LineKey(lines[i]) != Some(k)
  }

  /**
  The merged lines: a line that sets no updated key stays where it is, letter for letter; a line that
  sets one becomes `key=value`; and after them comes `key=value` for each key that no line sets.
  */
  lemma MergedLines(lines: seq<string>, order: seq<string>, updates: map<string, string>)
    requires Clean(order, updates)
    ensures var m := MergeLines(lines, order, updates);
      && |lines| <= |m|
      && (forall i :: 0 <= i < |lines| ==>
           match LineKey(lines[i])
           case None => m[i] == lines[i]
           case Some(k) => m[i] == if k in updates then k + "=" + updates[k] else lines[i])
      && (forall i :: |lines| <= i < |m| ==>
           exists k :: k in updates && NotSet(lines, k) && m[i] == Assignment(k, updates[k]))
      && (forall k :: k in updates && NotSet(lines, k) ==> Assignment(k, updates[k]) in m[|lines|..])
  {
    var m, seen := MergeLines(lines, order, updates), Seen(lines, updates);
    assert m[|lines|..] == Missing(order, updates, seen);
    MissingExactly(order, updates, seen);
    forall k | k in updates ensures k !in seen <==> NotSet(lines, k) {
      SeenIffSet(lines, updates, k);
    }
    forall i | |lines| <= i < |m|
      ensures exists k :: k in updates && NotSet(lines, k) && m[i] == Assignment(k, updates[k])
    {
      var line := Missing(order, updates, seen)[i - |lines|];
      assert line in Missing(order, updates, seen);
      var k :| k in updates && k !in seen && line == Assignment(k, updates[k]);
    }
  }

  lemma SeenIffSet(lines: seq<string>, updates: map<string, string>, k: string)
    requires k in updates
    ensures k !in Seen(lines, updates) <==> NotSet(lines, k)
  {
    if !NotSet(lines, k) {
      var i :| 0 <= i < |lines| && LineKey(lines[i]) == Some(k);
      assert lines[i] in lines && Updates(lines[i], updates);
    }
  }

  lemma {:induction false} MissingExactly(prefix: seq<string>, updates: map<string, string>, seen: set<string>)
    requires forall i :: 0 <= i < |prefix| ==> prefix[i] in updates
    ensures var m := Missing(prefix, updates, seen);
      && (forall line :: line in m ==> exists k :: k in updates && k !in seen && line == Assignment(k, updates[k]))
      && (forall k :: k in prefix && k !in seen ==> Assignment(k, updates[k]) in m)
  {
    if prefix != [] {
      MissingExactly(prefix[..|prefix| - 1], updates, seen);
    }
  }

  /** The added lines come in the order of the dictionary. */
  lemma {:induction false} AddedInOrder(
    prefix: seq<string>, updates: map<string, string>, seen: set<string>, a: nat, b: nat) returns (i: nat, j: nat)
    requires forall n :: 0 <= n < |prefix| ==> prefix[n] in updates
    requires a < b < |prefix| && prefix[a] !in seen && prefix[b] !in seen
    ensures var m := Missing(prefix, updates, seen);
      i < j < |m| && m[i] == Assignment(prefix[a], updates[prefix[a]]) && m[j] == Assignment(prefix[b], updates[prefix[b]])
  {
    var n := |prefix| - 1;
    var front := Missing(prefix[..n], updates, seen);
    if b < n {
      i, j := AddedInOrder(prefix[..n], updates, seen, a, b);
    } else {
      MissingExactly(prefix[..n], updates, seen);
      assert prefix[..n][a] in prefix[..n];
      i :| 0 <= i < |front| && front[i] == Assignment(prefix[a], updates[prefix[a]]);
      j := |front|;
    }
  }

  /**
  The written text has these lines: each but the last is a merged line letter for letter, and the
  last is one up to space at its end. What is missing of them is blank.
  */
  lemma MergedText(text: string, order: seq<string>, updates: map<string, string>)
    requires Clean(order, updates)
    ensures var m, out := MergeLines(SplitLines(text), order, updates), SplitLines(Merge(text, order, updates));
      m != [] ==>
        && 0 < |out| <= |m|
        && (forall i :: 0 <= i < |out| - 1 ==> out[i] == m[i])
        && out[|out| - 1] == RStrip(m[|out| - 1])
        && (forall i :: |out| <= i < |m| ==> RStrip(m[i]) == "")
  {
    MergedNoBreaks(SplitLines(text), order, updates);
    WrittenLines(MergeLines(SplitLines(text), order, updates));
  }

  // ---------- The one key that breaks it ----------

  const BARE := "export =x"

  lemma BareIsOneLine()
    ensures SplitLines(BARE) == [BARE]
  {
    assert forall i :: 0 <= i < |BARE| ==> !IsBreak(BARE[i]);
    assert LineLength(BARE) == |BARE|;
  }

  lemma BareReads()
    ensures ParseLine(BARE) == Some(("", "x")) && LineKey(BARE) == Some("export")
  {
    assert !IsSpace('e') && !IsSpace('x') && !IsSpace('=');
    assert BARE[0] == 'e' && BARE[|BARE| - 1] == 'x' && Strip(BARE) == BARE;
    BareBody();
    SameKeyOnEveryLine(BARE);
  }

  lemma BareBody()
    ensures EXPORT <= BARE && Strip(BARE[7..]) == "=x"
    ensures ParseStripped(BARE) == Some(("", "x"))
  {
    assert BARE[7..] == "=x";
    assert !IsSpace('x') && !IsSpace('=');
    assert "=x"[0] == '=' && "=x"[1] == 'x' && Strip("=x") == "=x";
    assert "=x"[..0] == "" && "=x"[1..] == "x" && Strip("x") == "x" && Strip("") == "";
    assert TrimChar("x", '"') == "x" && TrimChar("x", '\'') == "x";
    assert BARE[0] == 'e';
  }

  /** What is read of a merge whose only line sets the updated key `k`: updated keys, and no others. */
  lemma OneLineMerged(line: string, k: string, order: seq<string>, updates: map<string, string>)
    requires Clean(order, updates) && k in updates && LineKey(line) == Some(k)
    ensures "" !in ParseLines(MergeLines([line], order, updates))
  {
    var first := Assignment(k, updates[k]);
    assert RewriteAll([line], updates) == [first];
    assert [] + [first] == [first];
    AppendParses([], k, updates[k]);
    MissingParses([first], order, order, updates, Seen([line], updates));
  }

  lemma ExportLosesEmptyKey(order: seq<string>, updates: map<string, string>)
    requires Clean(order, updates) && "export" in updates
    ensures "" in Parse(BARE) && "" !in Parse(Merge(BARE, order, updates))
  {
    BareReads();
    BareIsOneLine();
    assert [BARE][..0] == [];
    MergeReadsAsLines(BARE, order, updates);
    OneLineMerged(BARE, "export", order, updates);
  }

  /** Merging clean updates overrides exactly the updated keys, for every text, iff `export` is not one of them. */
  lemma MergeOverridesIff(order: seq<string>, updates: map<string, string>)
    requires Clean(order, updates)
    ensures (forall text: string :: Parse(Merge(text, order, updates)) == Parse(text) + updates) <==> "export" !in updates
  {
    if "export" in updates {
      ExportLosesEmptyKey(order, updates);
      assert "" in Parse(BARE) + updates;
    } else {
      forall text: string ensures Parse(Merge(text, order, updates)) == Parse(text) + updates {
        MergeOverrides(text, order, updates);
      }
    }
  }

  // ---------- Merging twice ----------

  predicate Settled(lines: seq<string>, updates: map<string, string>) {
    && (forall i :: 0 <= i < |lines| ==> Rewrite(lines[i], updates) == lines[i])
    && (forall k :: k in updates ==> Assignment(k, updates[k]) in lines)
  }

  lemma MergedIsSettled(lines: seq<string>, order: seq<string>, updates: map<string, string>)
    requires Clean(order, updates)
    ensures Settled(MergeLines(lines, order, updates), updates)
  {
    var m := MergeLines(lines, order, updates);
    MissingAreAssignments(order, updates, Seen(lines, updates));
    forall k | k in updates ensures Assignment(k, updates[k]) in m {
      if k in Seen(lines, updates) {
        SeenIsRewritten(lines, updates, k);
      }
    }
    forall i | 0 <= i < |m| ensures Rewrite(m[i], updates) == m[i] {
      if i < |lines| {
        RewriteTwice(lines[i], order, updates);
      } else {
        var k :| k in updates && m[i] == Assignment(k, updates[k]);
        AssignmentParses(k, updates[k]);
      }
    }
  }

  lemma SeenIsRewritten(lines: seq<string>, updates: map<string, string>, k: string)
    requires k in Seen(lines, updates)
    ensures k in updates && Assignment(k, updates[k]) in RewriteAll(lines, updates)
  {
    var line :| line in lines && Updates(line, updates) && LineKey(line).value == k;
    var i :| 0 <= i < |lines| && lines[i] == line;
    assert RewriteAll(lines, updates)[i] == Assignment(k, updates[k]);
  }

  lemma RewriteTwice(line: string, order: seq<string>, updates: map<string, string>)
    requires Clean(order, updates)
    ensures Rewrite(Rewrite(line, updates), updates) == Rewrite(line, updates)
  {
    if Updates(line, updates) {
      AssignmentParses(LineKey(line).value, updates[LineKey(line).value]);
    }
  }

  lemma RewriteIgnoresRight(line: string, order: seq<string>, updates: map<string, string>)
    requires Clean(order, updates) && Rewrite(line, updates) == line
    ensures Rewrite(RStrip(line), updates) == RStrip(line)
  {
    StripIgnoresRight(line);
    if Updates(line, updates) {
      var k := LineKey(line).value;
      AssignmentStripped(k, updates[k]);
    }
  }

  lemma TrimTailTwice(lines: seq<string>)
    ensures TrimTail(TrimTail(lines)) == TrimTail(lines)
  {
    var t := TrimTail(lines);
    if t != [] {
      var n := |t| - 1;
      assert t == t[..n] + [t[n]];
      assert RStrip(t[n]) == t[n];
    }
  }

  /** A line that is not blank and has no space at its end survives the trimming. */
  lemma TrimTailKeeps(lines: seq<string>, line: string)
    requires line in lines && RStrip(line) == line != ""
    ensures line in TrimTail(lines)
  {
    var t := TrimTail(lines);
    var i :| 0 <= i < |lines| && lines[i] == line;
    assert i < |t|;
    assert t[i] == line;
  }

  lemma TrimmedIsSettled(lines: seq<string>, order: seq<string>, updates: map<string, string>)
    requires Clean(order, updates) && Settled(lines, updates)
    ensures Settled(TrimTail(lines), updates)
  {
    var t := TrimTail(lines);
    forall i | 0 <= i < |t| ensures Rewrite(t[i], updates) == t[i] {
      TrimTailLine(lines, i);
      RewriteIgnoresRight(lines[i], order, updates);
    }
    forall k | k in updates ensures Assignment(k, updates[k]) in t {
      TrimmedHas(lines, order, updates, k);
    }
  }

  lemma TrimTailLine(lines: seq<string>, i: nat)
    requires i < |TrimTail(lines)|
    ensures i < |lines| && (TrimTail(lines)[i] == lines[i] || TrimTail(lines)[i] == RStrip(lines[i]))
  {
  }

  lemma TrimmedHas(lines: seq<string>, order: seq<string>, updates: map<string, string>, k: string)
    requires Clean(order, updates) && k in updates && Assignment(k, updates[k]) in lines
    ensures Assignment(k, updates[k]) in TrimTail(lines)
  {
    AssignmentStripped(k, updates[k]);
    TrimTailKeeps(lines, Assignment(k, updates[k]));
  }

  lemma {:induction false} NothingMissing(prefix: seq<string>, updates: map<string, string>, seen: set<string>)
    requires forall i :: 0 <= i < |prefix| ==> prefix[i] in updates && prefix[i] in seen
    ensures Missing(prefix, updates, seen) == []
  {
    if prefix != [] {
      NothingMissing(prefix[..|prefix| - 1], updates, seen);
    }
  }

  lemma SettledMergesToItself(lines: seq<string>, order: seq<string>, updates: map<string, string>)
    requires Clean(order, updates) && Settled(lines, updates)
    ensures MergeLines(lines, order, updates) == lines
  {
    assert RewriteAll(lines, updates) == lines;
    forall k | k in updates ensures k in Seen(lines, updates) {
      AssignmentParses(k, updates[k]);
      assert Updates(Assignment(k, updates[k]), updates);
    }
    NothingMissing(order, updates, Seen(lines, updates));
  }

  /** A second merge of the same updates leaves the text as it is. */
  lemma MergeTwice(text: string, order: seq<string>, updates: map<string, string>)
    requires Clean(order, updates)
    ensures Merge(Merge(text, order, updates), order, updates) == Merge(text, order, updates)
  {
    var m := MergeLines(SplitLines(text), order, updates);
    MergedNoBreaks(SplitLines(text), order, updates);
    MergedIsSettled(SplitLines(text), order, updates);
    WrittenLines(m);
    RStripJoin(m);
    if m == [] {
      assert Settled([""], updates);
      SettledMergesToItself([""], order, updates);
      assert RStrip(Join([""])) == RStrip(Join([])) == "";
    } else {
      TrimmedIsSettled(m, order, updates);
      TrimTailTwice(m);
      SettledMergesToItself(TrimTail(m), order, updates);
      RStripJoin(TrimTail(m));
    }
  }

}
