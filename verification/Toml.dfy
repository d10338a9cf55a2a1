/** The lexical part of the gateway's hand-written TOML subset: comments, quoted strings, lists
    and inline tables, together with a printer that the list reader undoes. */
module Toml {
  import opened Text
  import opened Wrappers

  // ---------- Comments ----------

  /** How much of `line` stands before its comment. */
  function Kept(line: string, inString: bool, escaped: bool): (n: nat)
    ensures n <= |line|
  {
    if line == "" then 0
    else if escaped then 1 + Kept(line[1..], inString, false)
    else if line[0] == '\\' && inString then 1 + Kept(line[1..], true, true)
    else if line[0] == '"' then 1 + Kept(line[1..], !inString, false)
    else if line[0] == '#' && !inString then 0
    else 1 + Kept(line[1..], inString, false)
  }

  function StripComment(line: string): string {
    line[..Kept(line, false, false)]
  }

  method StripCommentLoop(line: string) returns (r: string)
    ensures r == StripComment(line)
  {
    var inString, escaped := false, false;
    var i := 0;
    while i < |line|
      invariant 0 <= i <= |line|
      invariant Kept(line, false, false) == i + Kept(line[i..], inString, escaped)
    {
      var c := line[i];
      assert line[i..][1..] == line[i + 1..];
      if escaped {
        escaped := false;
      } else if c == '\\' && inString {
        escaped := true;
      } else if c == '"' {
        inString := !inString;
      } else if c == '#' && !inString {
        return line[..i];
      }
      i := i + 1;
    }
    return line;
  }

  // ---------- Quoted strings ----------

  /** The first unescaped quote. */
  function QuoteEnd(s: string, escaped: bool): (r: Option<nat>)
    ensures r.Some? ==> r.value < |s| && s[r.value] == '"'
  {
    if s == "" then None
    else if !escaped && s[0] == '"' then Some(0)
    else
      match QuoteEnd(s[1..], !escaped && s[0] == '\\')
      case None => None
      case Some(i) => Some(i + 1)
  }

  /** The scan for the closing quote of a string that starts `line`. */
  method FindQuoteEnd(line: string) returns (end: int)
    requires line != ""
    ensures match QuoteEnd(line[1..], false) case None => end == -1 case Some(k) => end == k + 1
  {
    var escaped := false;
    var i := 1;
    while i < |line|
      invariant 1 <= i <= |line|
      invariant QuoteEnd(line[1..], false) ==
                match QuoteEnd(line[i..], escaped) case None => None case Some(k) => Some(k + i - 1)
    {
      assert line[i..][1..] == line[i + 1..];
      if escaped {
        escaped := false;
      } else if line[i] == '\\' {
        escaped := true;
      } else if line[i] == '"' {
        return i;
      }
      i := i + 1;
    }
    return -1;
  }

  /** The replacer of `parseTOMLString`: from the left, `\"` and `\\` lose their backslash. */
  function Unescape(s: string): string {
    if |s| >= 2 && s[0] == '\\' && (s[1] == '"' || s[1] == '\\') then [s[1]] + Unescape(s[2..])
    else if s == "" then ""
    else [s[0]] + Unescape(s[1..])
  }

  function ParseString(value: string): Option<string> {
    if |value| < 2 || value[0] != '"' || value[|value| - 1] != '"' then None
    else Some(Unescape(value[1..|value| - 1]))
  }

  function Escape(s: string): string {
    if s == "" then ""
    else if s[0] == '"' || s[0] == '\\' then ['\\', s[0]] + Escape(s[1..])
    else [s[0]] + Escape(s[1..])
  }

  function Quote(s: string): string {
    "\"" + Escape(s) + "\""
  }

  // ---------- Lists ----------

  /** The quoted string that starts `t` and what follows it and its white space. */
  function FirstItem(t: string): (r: Option<(string, string)>)
    ensures r.Some? ==> |r.value.1| < |t|
  {
    if t == "" || t[0] != '"' then None
    else
      match QuoteEnd(t[1..], false)
      case None => None
      case Some(k) => Some((Unescape(t[1..k + 1]), TrimLeft(t[k + 2..])))
  }

  /** The strings of a comma-separated list; a trailing comma is allowed. */
  function Items(line: string): Option<seq<string>>
    decreases |line|
  {
    var t := TrimLeft(line);
    if t == "" then Some([])
    else
      match FirstItem(t)
      case None => None
      case Some((value, rest)) =>
        if rest == "" then Some([value])
        else if rest[0] != ',' then None
        else
          match Items(rest[1..])
          case None => None
          case Some(values) => Some([value] + values)
  }

  function ArrayLine(line: string): Option<(seq<string>, bool)> {
    var t := Trim(line);
    var done := HasSuffix(t, "]");
    match Items(if done then t[..|t| - 1] else t)
    case None => None
    case Some(values) => Some((values, done))
  }

  /** The last character that is not white space. */
  function LastVisible(s: string): Option<char> {
    if s == "" then None
    else if IsSpace(s[|s| - 1]) then LastVisible(s[..|s| - 1])
    else Some(s[|s| - 1])
  }

  predicate Blank(s: string) {
    LastVisible(s).None?
  }

  predicate CommaEnded(s: string) {
    Blank(s) || LastVisible(s) == Some(',')
  }

  function Print(items: seq<string>): string {
    if items == [] then ""
    else if |items| == 1 then Quote(items[0])
    else Quote(items[0]) + ", " + Print(items[1..])
  }

  // ---------- Keys and inline tables ----------

  function ParseKey(key: string): Option<string> {
    var t := Trim(key);
    if HasPrefix(t, "\"") then ParseString(t)
    else if t == "" || ' ' in t || '\t' in t || '\r' in t || '\n' in t then None
    else Some(t)
  }

  /** The key of an inline table entry and what follows it. */
  function InlineKey(value: string): (r: Option<(string, string)>)
    ensures r.Some? ==> |r.value.1| <= |value|
  {
    var t := Trim(value);
    if HasPrefix(t, "\"") then
      match QuoteEnd(t[1..], false)
      case None => None
      case Some(k) => Some((Unescape(t[1..k + 1]), t[k + 2..]))
    else
      match FirstOf(t)
      case None => None
      case Some(end) =>
        match ParseKey(t[..end])
        case None => None
        case Some(key) => Some((key, t[end..]))
  }

  /** The first '=' or ':'. */
  function FirstOf(s: string): (r: Option<nat>)
    ensures r.Some? ==> r.value < |s| && (s[r.value] == '=' || s[r.value] == ':')
  {
    if s == "" then None
    else if s[0] == '=' || s[0] == ':' then Some(0)
    else
      match FirstOf(s[1..])
      case None => None
      case Some(i) => Some(i + 1)
  }

  function InlineEntries(value: string, table: map<string, string>): Option<map<string, string>>
    decreases |value|
  {
    if value == "" then Some(table)
    else
      match InlineKey(value)
      case None => None
      case Some((key, after)) =>
        var rest := Trim(after);
        if rest == "" || (rest[0] != '=' && rest[0] != ':') then None
        else
          var quoted := Trim(rest[1..]);
          if !HasPrefix(quoted, "\"") then None
          else
            match QuoteEnd(quoted[1..], false)
            case None => None
            case Some(k) =>
              var table' := table[key := Unescape(quoted[1..k + 1])];
              var next := Trim(quoted[k + 2..]);
              if next == "" then Some(table')
              else if next[0] != ',' then None
              else InlineEntries(Trim(next[1..]), table')
  }

  function InlineTable(value: string): Option<map<string, string>> {
    var t := Trim(value);
    if !HasPrefix(t, "{") || !HasSuffix(t, "}") then None
    else
      var body := t[1..];
      InlineEntries(Trim(if HasSuffix(body, "}") then body[..|body| - 1] else body), map[])
  }

  lemma EntriesStep(value: string, table: map<string, string>)
    requires value != ""
    ensures InlineEntries(value, table) ==
            match InlineKey(value)
            case None => None
            case Some((key, after)) =>
              var rest := Trim(after);
              if rest == "" || (rest[0] != '=' && rest[0] != ':') then None
              else
                var quoted := Trim(rest[1..]);
                if !HasPrefix(quoted, "\"") then None
                else
                  match QuoteEnd(quoted[1..], false)
                  case None => None
                  case Some(k) =>
                    var table' := table[key := Unescape(quoted[1..k + 1])];
                    var next := Trim(quoted[k + 2..]);
                    if next == "" then Some(table')
                    else if next[0] != ',' then None
                    else InlineEntries(Trim(next[1..]), table')
  {
    hide InlineKey, QuoteEnd, Unescape;
  }

  lemma EntriesEnd(table: map<string, string>)
    ensures InlineEntries("", table) == Some(table)
  {}

  // ---------- White space ----------

  lemma {:induction false} TrimLeftConcat(s: string, t: string)
    ensures TrimLeft(s + t) == if TrimLeft(s) == "" then TrimLeft(t) else TrimLeft(s) + t
  {
    if s == "" {
      assert s + t == t;
    } else if IsSpace(s[0]) {
      assert (s + t)[1..] == s[1..] + t;
      TrimLeftConcat(s[1..], t);
    }
  }

  lemma {:induction false} TrimLeftSuffix(s: string)
    ensures TrimLeft(s) == s[|s| - |TrimLeft(s)|..]
    ensures Blank(s[..|s| - |TrimLeft(s)|])
    ensures Blank(s) <==> TrimLeft(s) == ""
    ensures LastVisible(TrimLeft(s)) == LastVisible(s)
  {
    if s != "" && IsSpace(s[0]) {
      TrimLeftSuffix(s[1..]);
      var n := |s| - |TrimLeft(s)|;
      assert s[..n] == [s[0]] + s[1..][..n - 1];
      VisibleConcat([s[0]], s[1..][..n - 1]);
      VisibleConcat([s[0]], s[1..]);
      assert s == [s[0]] + s[1..];
    } else if s != "" {
      VisibleConcat([s[0]], s[1..]);
      assert s == [s[0]] + s[1..];
    }
  }

  lemma {:induction false} VisibleConcat(s: string, t: string)
    ensures LastVisible(s + t) == if Blank(t) then LastVisible(s) else LastVisible(t)
  {
    if t == "" {
      assert s + t == s;
    } else {
      assert (s + t)[..|s + t| - 1] == s + t[..|t| - 1];
      VisibleConcat(s, t[..|t| - 1]);
    }
  }

  /** `s` is its right-trimmed part followed by white space. */
  lemma {:induction false} TrimRightPrefix(s: string)
    ensures Blank(s[|TrimRight(s)|..])
    ensures LastVisible(TrimRight(s)) == LastVisible(s)
    ensures TrimRight(s) != "" ==> LastVisible(s) == Some(TrimRight(s)[|TrimRight(s)| - 1])
    ensures Blank(s) <==> TrimRight(s) == ""
  {
    if s != "" && IsSpace(s[|s| - 1]) {
      TrimRightPrefix(s[..|s| - 1]);
      var n := |TrimRight(s)|;
      assert s[n..][..|s| - 1 - n] == s[..|s| - 1][n..];
    }
  }

  // ---------- Quotes ----------

  lemma {:induction false} QuoteEndConcat(s: string, t: string, escaped: bool)
    requires QuoteEnd(s, escaped).Some?
    ensures QuoteEnd(s + t, escaped) == QuoteEnd(s, escaped)
  {
    assert (s + t)[1..] == s[1..] + t;
    if escaped || s[0] != '"' {
      QuoteEndConcat(s[1..], t, !escaped && s[0] == '\\');
    }
  }

  lemma {:induction false} QuoteEndNone(s: string, c: char, escaped: bool)
    requires QuoteEnd(s, escaped).None? && c != '"'
    ensures QuoteEnd(s + [c], escaped).None?
  {
    if s != "" {
      assert (s + [c])[1..] == s[1..] + [c];
      QuoteEndNone(s[1..], c, !escaped && s[0] == '\\');
    } else {
      assert (s + [c])[1..] == "";
    }
  }

  lemma {:induction false} EscapeEnds(s: string, t: string)
    ensures QuoteEnd(Escape(s) + "\"" + t, false) == Some(|Escape(s)|)
  {
    var u := Escape(s) + "\"" + t;
    if s == "" {
      assert u == "\"" + t;
    } else {
      EscapeEnds(s[1..], t);
      var v := Escape(s[1..]) + "\"" + t;
      if s[0] == '"' || s[0] == '\\' {
        assert u[0] == '\\' && u[1] == s[0];
        assert u[1..][1..] == v;
        assert QuoteEnd(u[1..], true) == Some(1 + |Escape(s[1..])|);
      } else {
        assert u[1..] == v;
      }
    }
  }

  lemma {:induction false} UnescapeEscape(s: string)
    ensures Unescape(Escape(s)) == s
  {
    if s != "" {
      UnescapeEscape(s[1..]);
      var u := Escape(s);
      if s[0] == '"' || s[0] == '\\' {
        assert u[2..] == Escape(s[1..]);
      } else {
        assert u[1..] == Escape(s[1..]);
        assert s[0] != '\\';
      }
    }
  }

  // ---------- Lists: trailing white space, concatenation ----------

  lemma FirstItemConcat(t: string, b: string)
    requires FirstItem(t).Some?
    ensures var (value, rest) := FirstItem(t).value;
            FirstItem(t + b) == Some((value, if rest == "" then TrimLeft(b) else rest + b))
  {
    hide *;
    var k := FirstItemAt(t);
    var u, after := t + b, t[k + 2..];
    Slices(t, b, k);
    QuoteEndConcat(t[1..], b, false);
    TrimLeftConcat(after, b);
    FirstItemIs(u, k);
  }

  lemma FirstItemAt(t: string) returns (k: nat)
    requires FirstItem(t).Some?
    ensures k + 2 <= |t| && t[0] == '"' && QuoteEnd(t[1..], false) == Some(k)
    ensures FirstItem(t) == Some((Unescape(t[1..k + 1]), TrimLeft(t[k + 2..])))
  {
    hide QuoteEnd, Unescape, TrimLeft;
    k := QuoteEnd(t[1..], false).value;
  }

  lemma FirstItemIs(u: string, k: nat)
    requires k + 2 <= |u| && u[0] == '"' && QuoteEnd(u[1..], false) == Some(k)
    ensures FirstItem(u) == Some((Unescape(u[1..k + 1]), TrimLeft(u[k + 2..])))
  {
    hide QuoteEnd, Unescape, TrimLeft;
  }

  lemma Slices(t: string, b: string, k: nat)
    requires k + 2 <= |t|
    ensures (t + b)[0] == t[0] && (t + b)[1..] == t[1..] + b
    ensures (t + b)[1..k + 1] == t[1..k + 1] && (t + b)[k + 2..] == t[k + 2..] + b
  {}

  lemma FirstItemNone(t: string, c: char)
    requires t != "" && FirstItem(t).None? && IsSpace(c)
    ensures FirstItem(t + [c]).None?
  {
    assert (t + [c])[1..] == t[1..] + [c];
    if t[0] == '"' {
      QuoteEndNone(t[1..], c, false);
    }
  }

  lemma FirstItemVisible(t: string)
    requires FirstItem(t).Some?
    ensures var rest := FirstItem(t).value.1;
            LastVisible(t) == if rest == "" then Some('"') else LastVisible(rest)
  {
    var k := QuoteEnd(t[1..], false).value;
    TrimLeftSuffix(t[k + 2..]);
    VisibleConcat(t[..k + 2], t[k + 2..]);
    assert t == t[..k + 2] + t[k + 2..];
  }

  lemma {:induction false} ItemsTrailingSpace(s: string, c: char)
    requires IsSpace(c)
    ensures Items(s + [c]) == Items(s)
    decreases |s|
  {
    hide FirstItem;
    TrimLeftConcat(s, [c]);
    var t := TrimLeft(s);
    assert TrimLeft([c]) == "";
    if t != "" {
      if FirstItem(t).None? {
        FirstItemNone(t, c);
      } else {
        FirstItemConcat(t, [c]);
        var rest := FirstItem(t).value.1;
        if rest != "" && rest[0] == ',' {
          assert (rest + [c])[1..] == rest[1..] + [c];
          ItemsTrailingSpace(rest[1..], c);
        }
      }
    }
  }

  lemma {:induction false} ItemsTrimmed(s: string)
    ensures Items(TrimLeft(s)) == Items(s)
    ensures Items(TrimRight(s)) == Items(s)
    ensures Items(Trim(s)) == Items(s)
    decreases |s|
  {
    ItemsTrimLeft(s);
    ItemsTrimRight(s);
    ItemsTrimRight(TrimLeft(s));
  }

  lemma ItemsTrimLeft(s: string)
    ensures Items(TrimLeft(s)) == Items(s)
  {
    assert TrimLeft(TrimLeft(s)) == TrimLeft(s);
  }

  lemma {:induction false} ItemsTrimRight(s: string)
    ensures Items(TrimRight(s)) == Items(s)
  {
    if s != "" && IsSpace(s[|s| - 1]) {
      ItemsTrimRight(s[..|s| - 1]);
      ItemsTrailingSpace(s[..|s| - 1], s[|s| - 1]);
      assert s == s[..|s| - 1] + [s[|s| - 1]];
    }
  }

  /** After a comma, or after nothing, a list goes on as if it began there. */
  lemma {:induction false} ItemsConcat(a: string, b: string)
    requires Items(a).Some? && CommaEnded(a)
    ensures Items(a + b) == match Items(b) case None => None case Some(v) => Some(Items(a).value + v)
    decreases |a|
  {
    hide FirstItem, LastVisible, TrimLeft, IsSpace, Items;
    ItemsEmpty();
    ItemsTrimLeft(a);
    ItemsTrimLeft(b);
    ItemsTrimLeft(a + b);
    TrimLeftConcat(a, b);
    TrimLeftSuffix(a);
    var t := TrimLeft(a);
    if t != "" {
      TrimTwice(a);
      TrimTwice(a + b);
      ItemsStep(t);
      ItemsStep(t + b);
      FirstItemConcat(t, b);
      FirstItemVisible(t);
      var (value, rest) := FirstItem(t).value;
      assert (rest + b)[1..] == rest[1..] + b;
      assert rest == [rest[0]] + rest[1..];
      VisibleConcat([rest[0]], rest[1..]);
      ItemsConcat(rest[1..], b);
      if Items(b).Some? {
        assert Items(a + b).value == Items(a).value + Items(b).value;
      }
    } else if Items(b).Some? {
      assert [] + Items(b).value == Items(b).value;
    }
  }

  lemma TrimTwice(s: string)
    ensures TrimLeft(TrimLeft(s)) == TrimLeft(s)
  {}

  // ---------- Comments and lists ----------

  lemma {:induction false} KeptBlank(s: string, t: string)
    requires Blank(s)
    ensures Kept(s + t, false, false) == |s| + Kept(t, false, false)
  {
    if s == "" {
      assert s + t == t;
    } else {
      var init := s[..|s| - 1];
      KeptBlank(init, [s[|s| - 1]] + t);
      assert s + t == init + ([s[|s| - 1]] + t);
      assert ([s[|s| - 1]] + t)[1..] == t;
    }
  }

  lemma {:induction false} KeptString(s: string, escaped: bool)
    requires QuoteEnd(s, escaped).Some?
    ensures var k := QuoteEnd(s, escaped).value;
            Kept(s, true, escaped) == k + 1 + Kept(s[k + 1..], false, false)
  {
    if escaped || s[0] != '"' {
      var e := !escaped && s[0] == '\\';
      var k := QuoteEnd(s[1..], e).value;
      KeptString(s[1..], e);
      assert s[1..][k + 1..] == s[k + 2..];
      assert QuoteEnd(s, escaped) == Some(k + 1);
      assert Kept(s, true, escaped) == 1 + Kept(s[1..], true, e);
      assert Kept(s, true, escaped) == k + 2 + Kept(s[k + 2..], false, false);
    } else {
      assert QuoteEnd(s, escaped) == Some(0);
      assert Kept(s, true, escaped) == 1 + Kept(s[0 + 1..], false, false);
    }
  }

  lemma FirstItemKept(t: string, u: string)
    requires FirstItem(t).Some?
    ensures var rest := FirstItem(t).value.1;
            Kept(t + u, false, false) == |t| - |rest| + Kept(rest + u, false, false)
  {
    hide QuoteEnd, TrimLeft, Unescape;
    assert (t + u)[1..] == t[1..] + u;
    var k := QuoteEnd(t[1..], false).value;
    QuoteEndConcat(t[1..], u, false);
    KeptString(t[1..] + u, false);
    assert (t[1..] + u)[k + 1..] == t[k + 2..] + u;
    BlankKept(t[k + 2..], u);
  }

  lemma BlankKept(a: string, t: string)
    ensures Kept(a + t, false, false) == |a| - |TrimLeft(a)| + Kept(TrimLeft(a) + t, false, false)
  {
    TrimLeftSuffix(a);
    var n := |a| - |TrimLeft(a)|;
    assert a + t == a[..n] + (TrimLeft(a) + t);
    KeptBlank(a[..n], TrimLeft(a) + t);
  }

  lemma KeptPlain(c: char, t: string)
    requires c != '"' && c != '#'
    ensures Kept([c] + t, false, false) == 1 + Kept(t, false, false)
  {
    assert ([c] + t)[1..] == t;
  }

  /** A well-formed list hides no comment: stripping passes over it. */
  lemma {:induction false} KeptItems(a: string, t: string)
    requires Items(a).Some?
    ensures Kept(a + t, false, false) == |a| + Kept(t, false, false)
    decreases |a|
  {
    hide FirstItem, Kept;
    BlankKept(a, t);
    var u := TrimLeft(a);
    if u == "" {
      assert u + t == t;
    } else {
      FirstItemKept(u, t);
      var rest := FirstItem(u).value.1;
      if rest == "" {
        assert rest + t == t;
      } else {
        assert rest + t == [','] + (rest[1..] + t);
        KeptPlain(',', rest[1..] + t);
        KeptItems(rest[1..], t);
      }
    }
  }

  // ---------- The list reader of the source ----------

  function Prepend(values: seq<string>, r: Option<seq<string>>): Option<seq<string>> {
    match r
    case None => None
    case Some(vs) => Some(values + vs)
  }

  lemma PrependMore(values: seq<string>, value: string, r: Option<seq<string>>)
    ensures Prepend([], r) == r
    ensures Prepend(values, Prepend([value], r)) == Prepend(values + [value], r)
    ensures Prepend(values, Some([])) == Some(values)
    ensures Prepend(values, Some([value])) == Some(values + [value])
    ensures Prepend(values, None) == None
  {
    if r.Some? {
      assert [] + r.value == r.value;
      assert values + ([value] + r.value) == (values + [value]) + r.value;
    }
    assert values + [] == values;
  }

  lemma ItemsStep(line: string)
    requires line != "" && TrimLeft(line) == line
    ensures Items(line) ==
            match FirstItem(line)
            case None => None
            case Some((value, rest)) =>
              if rest == "" then Some([value])
              else if rest[0] != ',' then None
              else Prepend([value], Items(rest[1..]))
  {
    hide FirstItem;
  }

  /** `parseTOMLStringListItems`, which trims the remaining line on both sides at every turn. */
  method ParseListItems(text: string) returns (r: Option<seq<string>>)
    ensures r == Items(text)
  {
    hide Unescape, QuoteEnd, Trim, TrimLeft, TrimRight, IsSpace, Prepend, Items;
    var values: seq<string> := [];
    var line := text;
    PrependMore([], "", Items(line));
    while true
      invariant Items(text) == Prepend(values, Items(line))
      decreases |line|
    {
      ItemsTrimmed(line);
      line := Trim(line);
      TrimLeftTrimmed(line);
      PrependMore(values, "", None);
      if line == "" {
        ItemsEmpty();
        return Some(values);
      }
      ItemsStep(line);
      FirstIsQuote(line);
      if !HasPrefix(line, "\"") {
        return None;
      }
      var end := FindQuoteEnd(line);
      if end < 0 {
        return None;
      }
      var value := ParseString(line[..end + 1]).value;
      assert line[..end + 1][1..end] == line[1..end];
      ghost var after := line[end + 1..];
      PrependMore(values, value, None);
      line := Trim(line[end + 1..]);
      TrimRightSame(after);
      if line == "" {
        return Some(values + [value]);
      }
      FirstIsComma(line);
      if !HasPrefix(line, ",") {
        return None;
      }
      CommaTrim(after);
      PrependMore(values, value, Items(line[1..]));
      values := values + [value];
      line := line[1..];
    }
  }

  lemma ItemsEmpty()
    ensures Items("") == Some([])
  {}

  lemma FirstIsQuote(s: string)
    requires s != ""
    ensures HasPrefix(s, "\"") <==> s[0] == '"'
  {}

  lemma FirstIsComma(s: string)
    requires s != ""
    ensures HasPrefix(s, ",") <==> s[0] == ','
  {}

  lemma TrimLeftTrimmed(s: string)
    requires Trimmed(s)
    ensures TrimLeft(s) == s
  {}

  lemma TrimRightSame(s: string)
    ensures |Trim(s)| <= |s|
    ensures Trim(s) == "" <==> TrimLeft(s) == ""
    ensures TrimLeft(s) != "" ==> Trim(s) != "" && Trim(s)[0] == TrimLeft(s)[0]
  {
    var t := TrimLeft(s);
    TrimRightPrefix(t);
    if t != "" {
      VisibleFirst(t);
    }
  }

  lemma VisibleFirst(t: string)
    requires t != "" && !IsSpace(t[0])
    ensures !Blank(t)
  {
    VisibleConcat([t[0]], t[1..]);
    assert t == [t[0]] + t[1..];
  }

  lemma CommaTrim(after: string)
    requires Trim(after) != "" && Trim(after)[0] == ','
    ensures TrimLeft(after) != "" && Items(Trim(after)[1..]) == Items(TrimLeft(after)[1..])
  {
    var t := TrimLeft(after);
    TrimRightSame(after);
    CommaTrimRight(t);
  }

  lemma {:induction false} CommaTrimRight(t: string)
    requires t != "" && t[0] == ','
    ensures TrimRight(t) != "" && Items(TrimRight(t)[1..]) == Items(t[1..])
  {
    hide Items;
    if IsSpace(t[|t| - 1]) {
      var init := t[..|t| - 1];
      assert init != "";
      CommaTrimRight(init);
      ItemsTrailingSpace(init[1..], t[|t| - 1]);
      assert t[1..] == init[1..] + [t[|t| - 1]];
    }
  }

  // ---------- Main result: the printer is undone ----------

  lemma QuotedFirst(s: string, t: string)
    ensures TrimLeft(Quote(s) + t) == Quote(s) + t
    ensures FirstItem(Quote(s) + t) == Some((s, TrimLeft(t)))
  {
    hide QuoteEnd, Escape, Unescape;
    EscapeEnds(s, t);
    UnescapeEscape(s);
    var n, u := |Escape(s)|, Quote(s) + t;
    assert u[0] == '"' && !IsSpace('"');
    assert u[1..] == Escape(s) + "\"" + t;
    assert u[1..n + 1] == Escape(s) by {
      assert u[1..n + 1] == u[1..][..n];
    }
    assert u[n + 2..] == t;
  }

  lemma {:induction false} ItemsOfPrint(items: seq<string>)
    ensures Items(Print(items)) == Some(items)
    decreases |items|
  {
    hide FirstItem, Quote;
    if items == [] {
    } else if |items| == 1 {
      QuotedFirst(items[0], "");
      assert Quote(items[0]) + "" == Quote(items[0]);
      assert items == [items[0]];
    } else {
      var more := Print(items[1..]);
      var t := ", " + more;
      QuotedFirst(items[0], t);
      assert Print(items) == Quote(items[0]) + t;
      assert TrimLeft(t) == t && t[1..] == " " + more;
      ItemsOfPrint(items[1..]);
      assert Blank(" ") && Items(" ") == Some([]);
      ItemsConcat(" ", more);
      assert items == [items[0]] + items[1..];
    }
  }

  /** Parser and printer undo each other: the quoted and escaped one-line array, closed and
      followed by any white space and comment, reads back as exactly the printed list. */
  lemma PrintedArrayReadsBack(items: seq<string>, space: string, comment: string)
    requires Blank(space)
    ensures ArrayLine(StripComment(Print(items) + "]" + space + "#" + comment)) == Some((items, true))
    ensures ArrayLine(StripComment(Print(items) + "]" + space)) == Some((items, true))
  {
    ItemsOfPrint(items);
    var body := Print(items) + "]" + space;
    ClosedKept(Print(items), space, "#" + comment);
    assert Kept("#" + comment, false, false) == 0;
    assert body + ("#" + comment) == Print(items) + "]" + space + "#" + comment;
    assert (body + ("#" + comment))[..|body|] == body;
    ClosedKept(Print(items), space, "");
    assert body + "" == body;
    ClosedReads(Print(items), space);
  }

  lemma ClosedKept(list: string, space: string, t: string)
    requires Items(list).Some? && Blank(space)
    ensures Kept(list + "]" + space + t, false, false) == |list| + 1 + |space| + Kept(t, false, false)
  {
    var tail := "]" + space + t;
    assert list + "]" + space + t == list + tail;
    KeptItems(list, tail);
    assert tail[1..] == space + t;
    KeptBlank(space, t);
  }

  lemma TrimClosed(list: string, space: string)
    requires Blank(space)
    ensures Trim(list + "]" + space) == TrimLeft(list) + "]"
  {
    hide LastVisible;
    TrimLeftConcat(list, "]");
    TrimLeftConcat(list + "]", space);
    assert TrimLeft("]") == "]";
    var left := TrimLeft(list) + "]";
    assert TrimLeft(list + "]") == left;
    assert left != "" && left[|left| - 1] == ']';
    TrimRightBlank(left, space);
  }

  /** A closing line reads as its list. */
  lemma ClosedReads(list: string, space: string)
    requires Items(list).Some? && Blank(space)
    ensures ArrayLine(list + "]" + space) == Some((Items(list).value, true))
  {
    hide Items, LastVisible, TrimLeft, Trim;
    TrimClosed(list, space);
    var left := TrimLeft(list) + "]";
    assert left[..|left| - 1] == TrimLeft(list);
    assert left[|left| - 1..] == "]";
    ItemsTrimLeft(list);
  }

  lemma {:induction false} TrimRightBlank(s: string, space: string)
    requires Blank(space)
    ensures TrimRight(s + space) == TrimRight(s)
  {
    if space == "" {
      assert s + space == s;
    } else {
      assert (s + space)[..|s + space| - 1] == s + space[..|space| - 1];
      TrimRightBlank(s, space[..|space| - 1]);
    }
  }
}
