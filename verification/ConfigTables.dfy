/** Inline tables, single strings and section headers, as text: each is read as what was printed. */
module ConfigTables {
  import opened ConfigArrays
  import opened ConfigFile
  import opened ConfigText
  import opened Text
  import opened Toml
  import opened Wrappers

  // ---------- The printer ----------

  /** One entry, with '=' or ':' between key and value. */
  function PrintEntry(sep: char, entry: (string, string)): string {
    Quote(entry.0) + [sep] + " " + Quote(entry.1)
  }

  function PrintEntries(sep: char, entries: seq<(string, string)>): string {
    if entries == [] then ""
    else if |entries| == 1 then PrintEntry(sep, entries[0])
    else PrintEntry(sep, entries[0]) + ", " + PrintEntries(sep, entries[1..])
  }

  function PrintTable(sep: char, entries: seq<(string, string)>): string {
    "{" + PrintEntries(sep, entries) + "}"
  }

  /** The table the entries make; of two entries with one key the later counts. */
  function TableOf(table: map<string, string>, entries: seq<(string, string)>): map<string, string>
    decreases |entries|
  {
    if entries == [] then table else TableOf(table[entries[0].0 := entries[0].1], entries[1..])
  }

  // ---------- White space and quotes ----------

  /** Starts and ends with a quotation mark. */
  predicate Framed(s: string) {
    |s| >= 2 && s[0] == '"' && s[|s| - 1] == '"'
  }

  lemma QuoteFramed(s: string)
    ensures Framed(Quote(s))
  {}

  lemma FramedTrims(s: string)
    requires Framed(s)
    ensures Trim(s) == s && Trim(" " + s) == s && HasPrefix(s, "\"")
  {
    TrimTrimmed(s);
    assert (" " + s)[1..] == s;
    FirstIsQuote(s);
  }

  lemma FramedAfter(c: char, s: string, t: string)
    requires !IsSpace(c) && Framed(t)
    ensures Trim([c] + s + t) == [c] + s + t
  {
    var x := [c] + s + t;
    assert x[0] == c && x[|x| - 1] == t[|t| - 1];
    TrimTrimmed(x);
  }

  lemma {:induction false} EntriesFramed(sep: char, entries: seq<(string, string)>)
    requires entries != []
    ensures Framed(PrintEntries(sep, entries))
    decreases |entries|
  {
    hide Quote;
    QuoteFramed(entries[0].0);
    QuoteFramed(entries[0].1);
    if |entries| > 1 {
      EntriesFramed(sep, entries[1..]);
    }
  }

  // ---------- Reading entries ----------

  predicate Separator(sep: char) {
    sep == '=' || sep == ':'
  }

  lemma QuotedEnds(s: string, t: string)
    ensures var x := Quote(s) + t;
            && |x| >= 2 && x[0] == '"'
            && QuoteEnd(x[1..], false) == Some(|Escape(s)|)
            && |Escape(s)| + 2 <= |x|
            && Unescape(x[1..|Escape(s)| + 1]) == s
            && x[|Escape(s)| + 2..] == t
  {
    hide QuoteEnd, Escape, Unescape;
    EscapeEnds(s, t);
    UnescapeEscape(s);
    var n, x := |Escape(s)|, Quote(s) + t;
    assert x[1..] == Escape(s) + "\"" + t;
    assert x[1..n + 1] == Escape(s) by {
      assert x[1..n + 1] == x[1..][..n];
    }
  }

  lemma KeyReads(key: string, sep: char, t: string)
    requires Separator(sep) && Framed(t)
    ensures InlineKey(Quote(key) + ([sep] + " " + t)) == Some((key, [sep] + " " + t))
  {
    hide QuoteEnd, Escape, Unescape, Trim, Quote;
    var x := Quote(key) + ([sep] + " " + t);
    QuotedEnds(key, [sep] + " " + t);
    assert Framed(x) by {
      assert x[|x| - 1] == t[|t| - 1];
    }
    FramedTrims(x);
  }

  lemma EntryText(sep: char, entry: (string, string), rest: string)
    ensures PrintEntry(sep, entry) + rest == Quote(entry.0) + ([sep] + " " + (Quote(entry.1) + rest))
  {
    hide Quote;
  }

  lemma ValueFramed(text: string, more: string)
    requires more == "" || Framed(more)
    ensures Framed(Quote(text) + if more == "" then "" else ", " + more)
  {
    hide Quote;
    QuoteFramed(text);
    var t := Quote(text) + if more == "" then "" else ", " + more;
    assert t[|t| - 1] == if more == "" then Quote(text)[|Quote(text)| - 1] else more[|more| - 1];
  }

  /** What the reader finds after a key: its separator, then its quoted value. */
  lemma AfterKey(sep: char, t: string)
    requires Separator(sep) && Framed(t)
    ensures var after := [sep] + " " + t;
            Trim(after) == after && after[0] == sep && Trim(after[1..]) == t && HasPrefix(t, "\"")
  {
    hide Trim;
    assert !IsSpace(sep);
    FramedAfter(sep, " ", t);
    assert ([sep] + " " + t)[1..] == " " + t;
    FramedTrims(t);
  }

  /** One entry, followed by nothing or by a comma and more entries. */
  lemma EntryReads(sep: char, entry: (string, string), more: string, table: map<string, string>)
    requires Separator(sep) && (more == "" || Framed(more))
    ensures var rest := if more == "" then "" else ", " + more;
            InlineEntries(PrintEntry(sep, entry) + rest, table) ==
            if more == "" then Some(table[entry.0 := entry.1]) else InlineEntries(more, table[entry.0 := entry.1])
  {
    hide QuoteEnd, Escape, Unescape, Trim, Quote, InlineKey, InlineEntries, PrintEntry, Framed, HasPrefix;
    var rest := if more == "" then "" else ", " + more;
    var t := Quote(entry.1) + rest;
    ValueFramed(entry.1, more);
    var value := Quote(entry.0) + ([sep] + " " + t);
    EntryText(sep, entry, rest);
    KeyReads(entry.0, sep, t);
    EntriesStep(value, table);
    AfterKey(sep, t);
    QuotedEnds(entry.1, rest);
    CommaTrims(more);
  }

  lemma CommaTrims(more: string)
    requires more == "" || Framed(more)
    ensures Trim("") == ""
    ensures more != "" ==> Trim(", " + more) == ", " + more && Trim((", " + more)[1..]) == more
  {
    if more != "" {
      assert [','] + " " + more == ", " + more;
      assert !IsSpace(',');
      FramedAfter(',', " ", more);
      assert (", " + more)[1..] == " " + more;
      FramedTrims(more);
    }
  }

  lemma {:induction false} EntriesRead(sep: char, entries: seq<(string, string)>, table: map<string, string>)
    requires Separator(sep)
    ensures InlineEntries(PrintEntries(sep, entries), table) == Some(TableOf(table, entries))
    decreases |entries|
  {
    hide InlineEntries, PrintEntry;
    if entries == [] {
      EntriesEnd(table);
    } else {
      var e := entries[0];
      if |entries| == 1 {
        EntryReads(sep, e, "", table);
        assert PrintEntry(sep, e) + "" == PrintEntry(sep, e);
        assert TableOf(table[e.0 := e.1], entries[1..]) == table[e.0 := e.1];
      } else {
        EntriesFramed(sep, entries[1..]);
        var more := PrintEntries(sep, entries[1..]);
        EntryReads(sep, e, more, table);
        assert PrintEntry(sep, e) + ", " + more == PrintEntry(sep, e) + (", " + more);
        EntriesRead(sep, entries[1..], table[e.0 := e.1]);
      }
    }
  }

  lemma TableTrims(sep: char, entries: seq<(string, string)>)
    ensures var t := PrintTable(sep, entries);
            && Trim(t) == t && HasPrefix(t, "{") && HasSuffix(t, "}") && !HasPrefix(t, "[")
            && t[1..] == PrintEntries(sep, entries) + "}"
            && Trim(PrintEntries(sep, entries)) == PrintEntries(sep, entries)
  {
    hide PrintEntries;
    var t := PrintTable(sep, entries);
    assert t[0] == '{' && t[|t| - 1] == '}';
    TrimTrimmed(t);
    assert t[|t| - 1..] == "}";
    if entries != [] {
      EntriesFramed(sep, entries);
      FramedTrims(PrintEntries(sep, entries));
    } else {
      NoEntries(sep);
    }
  }

  lemma NoEntries(sep: char)
    ensures PrintEntries(sep, []) == "" && Trim("") == ""
  {}

  /** Parser and printer undo each other: a printed inline table reads as its table. */
  lemma PrintedTableReadsBack(sep: char, entries: seq<(string, string)>)
    requires Separator(sep)
    ensures InlineTable(PrintTable(sep, entries)) == Some(TableOf(map[], entries))
  {
    hide PrintEntries, Trim, InlineEntries;
    TableTrims(sep, entries);
    var t := PrintTable(sep, entries);
    var body := PrintEntries(sep, entries) + "}";
    assert body[|body| - 1..] == "}" && body[..|body| - 1] == PrintEntries(sep, entries);
    EntriesRead(sep, entries, map[]);
  }

  // ---------- Texts with comments ----------

  lemma {:induction false} SettledConcat(s: string, t: string, inString: bool, escaped: bool)
    requires Settled(s, inString, escaped) && Settled(t, false, false)
    ensures Settled(s + t, inString, escaped)
  {
    if s == "" {
      assert s + t == t;
    } else {
      assert (s + t)[1..] == s[1..] + t;
      if escaped {
        SettledConcat(s[1..], t, inString, false);
      } else if s[0] == '\\' && inString {
        SettledConcat(s[1..], t, true, true);
      } else if s[0] == '"' {
        SettledConcat(s[1..], t, !inString, false);
      } else {
        SettledConcat(s[1..], t, inString, false);
      }
    }
  }

  lemma {:induction false} EscapeSettled(s: string)
    ensures Settled(Escape(s) + "\"", true, false)
  {
    var x := Escape(s) + "\"";
    if s == "" {
      assert x == "\"" && x[1..] == "";
    } else {
      EscapeSettled(s[1..]);
      var y := Escape(s[1..]) + "\"";
      if s[0] == '"' || s[0] == '\\' {
        assert x[0] == '\\' && x[1..][0] == s[0] && x[1..][1..] == y;
      } else {
        assert x[1..] == y;
      }
    }
  }

  lemma QuoteSettled(s: string)
    ensures Settled(Quote(s), false, false)
  {
    hide Escape;
    EscapeSettled(s);
    assert Quote(s)[1..] == Escape(s) + "\"";
  }

  lemma {:induction false} EntriesSettled(sep: char, entries: seq<(string, string)>)
    requires Separator(sep)
    ensures Settled(PrintEntries(sep, entries), false, false)
    decreases |entries|
  {
    hide Quote, Settled;
    SettledNothing();
    if entries != [] {
      var e := entries[0];
      QuoteSettled(e.0);
      QuoteSettled(e.1);
      PlainSettled([sep] + " ");
      SettledConcat([sep] + " ", Quote(e.1), false, false);
      SettledConcat(Quote(e.0), [sep] + " " + Quote(e.1), false, false);
      assert PrintEntry(sep, e) == Quote(e.0) + ([sep] + " " + Quote(e.1));
      if |entries| > 1 {
        EntriesSettled(sep, entries[1..]);
        var more := PrintEntries(sep, entries[1..]);
        PlainSettled(", ");
        SettledConcat(", ", more, false, false);
        SettledConcat(PrintEntry(sep, e), ", " + more, false, false);
        assert PrintEntry(sep, e) + ", " + more == PrintEntry(sep, e) + (", " + more);
      }
    }
  }

  lemma SettledNothing()
    ensures Settled("", false, false)
  {}

  lemma TableSettled(sep: char, entries: seq<(string, string)>)
    requires Separator(sep)
    ensures Settled(PrintTable(sep, entries), false, false)
  {
    hide Settled, PrintEntries;
    EntriesSettled(sep, entries);
    PlainSettled("{");
    PlainSettled("}");
    SettledConcat(PrintEntries(sep, entries), "}", false, false);
    SettledConcat("{", PrintEntries(sep, entries) + "}", false, false);
    assert PrintTable(sep, entries) == "{" + (PrintEntries(sep, entries) + "}");
  }

  /** An assignment line of settled parts is stripped of its comment only. */
  lemma AssignmentText(k: string, w: string, v: string, space: string, t: string)
    requires Settled(k, false, false) && Blank(w) && Settled(v, false, false) && Blank(space) && Comment(t)
    ensures StripComment(k + "=" + w + v + space + t) == k + "=" + w + v + space
  {
    hide Settled, Kept, LastVisible;
    var tail := space + t;
    KeptSettled(k, "=" + (w + (v + tail)), false, false);
    KeptPlain('=', w + (v + tail));
    KeptBlank(w, v + tail);
    KeptSettled(v, tail, false, false);
    KeptBlank(space, t);
    CommentKept(t);
    var x := k + "=" + w + v + space;
    assert x + t == k + ("=" + (w + (v + tail)));
    assert (x + t)[..|x|] == x;
  }

  lemma CommentKept(t: string)
    requires Comment(t)
    ensures Kept(t, false, false) == 0
  {}

  /** One printed assignment, through lines and comments, up to its value. */
  lemma AssignmentParses(env: Env, st: State, k: string, key: string, w: string, v: string, space: string, comment: string,
                         rest: string)
    requires st.arrayKey == "" && KeyText(k, key) && Settled(k, false, false) && Blank(w)
    requires v != "" && !IsSpace(v[0]) && !IsSpace(v[|v| - 1]) && Settled(v, false, false)
    requires Blank(space) && Comment(comment) && '\n' !in k + w + v + space + comment
    ensures ParseLines(env, st, Lines(k + "=" + w + v + space + comment + "\n" + rest)) ==
            match KeyValue(env, st, key, v) case None => None case Some(st') => ParseLines(env, st', Lines(rest))
  {
    hide StripComment, LastVisible, ParseLines, KeyText, Settled, DropCR, Lines, LineStep, KeyValue, TrimRight, IsSpace;
    var x := k + "=" + w + v;
    var line := x + space + comment;
    assert '\n' !in line;
    FirstLine(line, rest);
    assert x[|x| - 1] == v[|v| - 1];
    NotCR(v[|v| - 1]);
    DropCRAfter(x, space, comment);
    var space', comment' :| Blank(space') && Comment(comment') && DropCR(line) == x + space' + comment';
    AssignmentText(k, w, v, space', comment');
    ParseStep(env, st, DropCR(line), Lines(rest));
    assert k + "=" + w + (v + space') == k + "=" + w + v + space';
    AssignmentStep(env, st, DropCR(line), k, key, w, v + space');
    ValueTrims(v, space');
  }

  lemma NotCR(c: char)
    requires !IsSpace(c)
    ensures c != '\r'
  {}

  lemma ValueTrims(v: string, space: string)
    requires v != "" && !IsSpace(v[|v| - 1]) && Blank(space)
    ensures TrimRight(v + space) == v
  {
    hide LastVisible, IsSpace;
    TrimRightBlank(v, space);
  }

  // ---------- Main results ----------

  predicate NoNewlines(entries: seq<(string, string)>) {
    forall i :: 0 <= i < |entries| ==> '\n' !in entries[i].0 && '\n' !in entries[i].1
  }

  lemma {:induction false} TableNoNewline(sep: char, entries: seq<(string, string)>)
    requires Separator(sep) && NoNewlines(entries)
    ensures '\n' !in PrintEntries(sep, entries)
    decreases |entries|
  {
    hide Escape;
    if entries != [] {
      EscapeNoNewline(entries[0].0);
      EscapeNoNewline(entries[0].1);
      TableNoNewline(sep, entries[1..]);
    }
  }

  /** A line that assigns a printed inline table to `access_rule` outside any section makes
      exactly that table the global rule and changes nothing else; any other key or section
      refuses the file. */
  lemma PrintedTableParses(env: Env, st: State, k: string, key: string, w: string, sep: char,
                           entries: seq<(string, string)>, space: string, comment: string, rest: string)
    requires st.arrayKey == "" && KeyText(k, key) && Settled(k, false, false) && Blank(w) && Blank(space) && Comment(comment)
    requires Separator(sep) && NoNewlines(entries) && '\n' !in k + w + space + comment
    ensures ParseLines(env, st, Lines(k + "=" + w + PrintTable(sep, entries) + space + comment + "\n" + rest)) ==
            if st.section == "" && key == "access_rule"
            then ParseLines(env, st.(cfg := st.cfg.(globalRule := TableOf(map[], entries))), Lines(rest))
            else None
  {
    hide StripComment, LastVisible, ParseLines, KeyText, Settled, Lines, PrintEntries, InlineTable, TableOf;
    var v := PrintTable(sep, entries);
    TableNoNewline(sep, entries);
    TableSettled(sep, entries);
    TableTrims(sep, entries);
    PrintedTableReadsBack(sep, entries);
    assert v[0] == '{' && v[|v| - 1] == '}' && !IsSpace('{') && !IsSpace('}');
    AssignmentParses(env, st, k, key, w, v, space, comment, rest);
  }

  /** A line that assigns a printed string applies exactly that string. */
  lemma PrintedStringParses(env: Env, st: State, k: string, key: string, w: string, text: string, space: string,
                            comment: string, rest: string)
    requires st.arrayKey == "" && KeyText(k, key) && Settled(k, false, false) && Blank(w) && Blank(space) && Comment(comment)
    requires '\n' !in k + w + text + space + comment
    ensures ParseLines(env, st, Lines(k + "=" + w + Quote(text) + space + comment + "\n" + rest)) ==
            match ApplyValue(env, st.cfg, st.section, key, text)
            case None => None
            case Some(cfg) => ParseLines(env, st.(cfg := cfg), Lines(rest))
  {
    hide StripComment, LastVisible, ParseLines, KeyText, Settled, Lines, ApplyValue, Escape, Unescape;
    var v := Quote(text);
    EscapeNoNewline(text);
    QuoteSettled(text);
    UnescapeEscape(text);
    assert v[1..|v| - 1] == Escape(text);
    assert v[0] == '"' && v[|v| - 1] == '"' && !IsSpace('"');
    AssignmentParses(env, st, k, key, w, v, space, comment, rest);
    FirstIsBracket(v);
    FirstIsBrace(v);
  }

  lemma FirstIsBrace(s: string)
    requires s != ""
    ensures HasPrefix(s, "{") <==> s[0] == '{'
  {}

  /** A section header opens its section and changes nothing else. */
  lemma PrintedSectionParses(env: Env, st: State, name: string, space: string, comment: string, rest: string)
    requires st.arrayKey == "" && Blank(space) && Comment(comment) && '\n' !in name + space + comment
    requires '"' !in name && '#' !in name && Trimmed(name) && (name != "" ==> name[0] != '[')
    ensures ParseLines(env, st, Lines("[" + name + "]" + space + comment + "\n" + rest)) ==
            ParseLines(env, st.(section := name), Lines(rest))
  {
    hide LastVisible, ParseLines, Settled, Lines, DropCR, LineStep, IsSpace, Kept;
    var x := "[" + name + "]";
    var line := x + space + comment;
    assert '\n' !in line;
    FirstLine(line, rest);
    DropCRAfter(x, space, comment);
    var space', comment' :| Blank(space') && Comment(comment') && DropCR(line) == x + space' + comment';
    HeaderText(x, space', comment');
    ParseStep(env, st, DropCR(line), Lines(rest));
    HeaderStep(env, st, DropCR(line), name, space');
  }

  lemma HeaderText(x: string, space: string, comment: string)
    requires '"' !in x && '#' !in x && Blank(space) && Comment(comment)
    ensures StripComment(x + space + comment) == x + space
  {
    hide LastVisible, Settled, Kept;
    PlainSettled(x);
    KeptSettled(x, space + comment, false, false);
    KeptBlank(space, comment);
    CommentKept(comment);
    assert x + (space + comment) == (x + space) + comment;
    assert ((x + space) + comment)[..|x + space|] == x + space;
  }

  lemma HeaderStep(env: Env, st: State, text: string, name: string, space: string)
    requires st.arrayKey == "" && Blank(space) && Trimmed(name) && (name != "" ==> name[0] != '[')
    requires StripComment(text) == "[" + name + "]" + space
    ensures LineStep(env, st, text) == Some(st.(section := name))
  {
    hide StripComment, LastVisible, TrimLeft, Trim, Trimmed, KeyValue, ParseKey, IndexOf, HasPrefix, HasSuffix, ArrayLine;
    var line := "[" + name + "]";
    TrimClosed("[" + name, space);
    BracketVisible(name);
    HeaderParts(name);
    TrimTrimmed(name);
  }

  lemma HeaderParts(name: string)
    requires name != "" ==> name[0] != '['
    ensures var line := "[" + name + "]"; var body := line[1..];
            && line != "" && HasPrefix(line, "[") && !HasPrefix(line, "[[") && HasSuffix(line, "]")
            && HasSuffix(body, "]") && body[..|body| - 1] == name
  {
    hide HasSuffix;
    Closes("[" + name);
    Closes(name);
    OneBracket(name);
    assert ("[" + name + "]")[1..] == name + "]";
  }

  lemma Closes(s: string)
    ensures HasSuffix(s + "]", "]") && (s + "]")[..|s|] == s
  {
    assert (s + "]")[|s|..] == "]";
  }

  lemma OneBracket(name: string)
    requires name != "" ==> name[0] != '['
    ensures HasPrefix("[" + name + "]", "[") && !HasPrefix("[" + name + "]", "[[")
  {
    var line := "[" + name + "]";
    assert line[1] == if name == "" then ']' else name[0];
    assert "[["[1] == '[';
  }

  lemma BracketVisible(name: string)
    ensures TrimLeft("[" + name) == "[" + name
  {}

  // ---------- Refusals ----------

  /** Outside an array, a line is refused if it is a header of an array of tables or is not
      closed, if it has no equals sign, or if nothing stands on one side of the first one. */
  lemma LineRefused(env: Env, st: State, text: string)
    requires st.arrayKey == "" && Trim(StripComment(text)) != ""
    ensures var line := Trim(StripComment(text));
            && (line[0] == '[' && ("[[" <= line || line[|line| - 1] != ']') ==> LineStep(env, st, text) == None)
            && (line[0] != '[' && '=' !in line ==> LineStep(env, st, text) == None)
            && (forall cut ::
                  (0 <= cut < |line| && line[0] != '[' && line[cut] == '=' && '=' !in line[..cut]
                   && (Trim(line[..cut]) == "" || Trim(line[cut + 1..]) == ""))
                  ==> LineStep(env, st, text) == None)
  {
    hide Trim, StripComment, KeyValue, ParseKey;
    var line := Trim(StripComment(text));
    FirstIsBracket(line);
    assert HasSuffix(line, "]") <==> line[|line| - 1] == ']' by {
      assert line[|line| - 1..] == [line[|line| - 1]];
    }
    forall cut | 0 <= cut < |line| && line[cut] == '=' && '=' !in line[..cut]
      ensures IndexOf(line, '=') == Some(cut)
    {
      assert line == line[..cut] + ['='] + line[cut + 1..];
      IndexAfter(line[..cut], '=', line[cut + 1..]);
    }
  }

  /** Blank lines and comments do nothing, inside an array and outside. */
  lemma BlankLineIgnored(env: Env, st: State, text: string)
    requires Trim(StripComment(text)) == ""
    ensures LineStep(env, st, text) == Some(st)
  {}
}
