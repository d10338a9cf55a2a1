/** Multi-line arrays: how many lines an array is written on does not matter to the parser. */
module ConfigArrays {
  import opened ConfigFile
  import opened Text
  import opened Toml
  import opened Wrappers

  // ---------- One assignment line ----------

  /** `k` is a text the parser reads as the key `key` when it stands before an equals sign. */
  predicate KeyText(k: string, key: string) {
    && '=' !in k
    && ParseKey(k) == Some(key)
    && !HasPrefix(TrimLeft(k), "[")
  }

  lemma {:induction false} TrimRightAfter(a: string, b: string)
    requires a != "" && !IsSpace(a[|a| - 1])
    ensures TrimRight(a + b) == a + TrimRight(b)
  {
    if b == "" {
      assert a + b == a;
    } else {
      assert (a + b)[..|a + b| - 1] == a + b[..|b| - 1];
      TrimRightAfter(a, b[..|b| - 1]);
    }
  }

  lemma {:induction false} TrimLeftBlank(w: string, v: string)
    requires Blank(w)
    ensures TrimLeft(w + v) == TrimLeft(v)
  {
    TrimLeftSuffix(w);
    TrimLeftConcat(w, v);
  }

  /** How white space around the two sides of an assignment disappears. */
  lemma TrimAssignment(k: string, w: string, v: string)
    requires Blank(w) && v != "" && !IsSpace(v[0])
    ensures Trim(k + "=" + w + v) == TrimLeft(k) + "=" + w + TrimRight(v)
    ensures Trim(w + TrimRight(v)) == TrimRight(v)
    ensures TrimRight(v) != "" && TrimRight(v)[0] == v[0]
  {
    hide IsSpace, Blank, TrimRight, TrimLeft;
    TrimRightInner(w, v);
    TrimRightIdempotent(v);
    TrimLeftBlank(w, TrimRight(v));
    assert Trim(w + TrimRight(v)) == TrimRight(TrimRight(v));
    TrimSides(k, w + v);
    assert k + "=" + w + v == k + "=" + (w + v);
    assert TrimLeft(k) + "=" + w + TrimRight(v) == TrimLeft(k) + "=" + (w + TrimRight(v));
  }

  lemma TrimSides(k: string, x: string)
    ensures Trim(k + "=" + x) == TrimLeft(k) + "=" + TrimRight(x)
  {
    hide TrimRight, TrimLeft, IsSpace;
    var a := TrimLeft(k) + "=";
    Visible();
    TrimLeftConcat(k, "=");
    assert TrimLeft(k + "=") == a;
    TrimLeftConcat(k + "=", x);
    TrimRightAfter(a, x);
  }

  lemma Visible()
    ensures TrimLeft("=") == "=" && !IsSpace('=')
  {}

  lemma TrimRightInner(w: string, v: string)
    requires v != "" && !IsSpace(v[0])
    ensures TrimRight(v) != "" && TrimRight(v)[0] == v[0]
    ensures TrimRight(w + v) == w + TrimRight(v)
  {
    hide TrimRight, IsSpace;
    TrimRightAfter([v[0]], v[1..]);
    assert v == [v[0]] + v[1..];
    var a := w + [v[0]];
    assert a[|a| - 1] == v[0];
    TrimRightAfter(a, v[1..]);
    assert w + v == a + v[1..];
    assert a + TrimRight(v[1..]) == w + ([v[0]] + TrimRight(v[1..]));
  }

  lemma TrimRightIdempotent(v: string)
    requires TrimRight(v) != "" && v != "" && TrimRight(v)[0] == v[0] && !IsSpace(v[0])
    ensures TrimLeft(TrimRight(v)) == TrimRight(v)
    ensures TrimRight(TrimRight(v)) == TrimRight(v)
  {}

  lemma {:induction false} IndexAfter(a: string, c: char, b: string)
    requires c !in a
    ensures IndexOf(a + [c] + b, c) == Some(|a|)
  {
    if a != "" {
      assert (a + [c] + b)[1..] == a[1..] + [c] + b;
      IndexAfter(a[1..], c, b);
    }
  }

  lemma {:induction false} TrimLeftKeeps(s: string, c: char)
    requires c !in s
    ensures c !in TrimLeft(s)
  {
    TrimLeftSuffix(s);
  }

  lemma FirstIsBracket(s: string)
    requires s != ""
    ensures HasPrefix(s, "[") <==> s[0] == '['
  {}

  lemma KeyTextTrims(k: string, key: string)
    requires KeyText(k, key)
    ensures Trim(k) != "" && TrimLeft(k) != ""
    ensures Trim(TrimLeft(k)) == Trim(k) && ParseKey(Trim(k)) == Some(key)
    ensures TrimLeft(k)[0] != '['
  {
    TrimTrimmed(Trim(k));
    TrimTwice(k);
    FirstIsBracket(TrimLeft(k));
  }

  /** A line that assigns: whatever its comment and white space, the parser sees the key and the
      value without the white space that follows it. */
  lemma AssignmentStep(env: Env, st: State, text: string, k: string, key: string, w: string, v: string)
    requires st.arrayKey == "" && KeyText(k, key) && Blank(w) && v != "" && !IsSpace(v[0])
    requires StripComment(text) == k + "=" + w + v
    ensures LineStep(env, st, text) == KeyValue(env, st, key, TrimRight(v))
  {
    hide IsSpace, Blank, TrimRight, TrimLeft, Trim, KeyValue, StripComment, ParseKey, IndexOf;
    TrimAssignment(k, w, v);
    KeyTextTrims(k, key);
    TrimLeftKeeps(k, '=');
    var line := Trim(StripComment(text));
    var rest := w + TrimRight(v);
    assert line == TrimLeft(k) + ['='] + rest;
    IndexAfter(TrimLeft(k), '=', rest);
    assert line[..|TrimLeft(k)|] == TrimLeft(k);
    assert line[|TrimLeft(k)| + 1..] == rest;
    assert line[0] != '[';
  }

  // ---------- The lines of an array ----------

  /** Every list but the last ends with a comma or is blank, and reads as a list. */
  predicate Continues(c: string) {
    Items(c).Some? && CommaEnded(c)
  }

  function Join(contents: seq<string>): string {
    if contents == [] then "" else contents[0] + Join(contents[1..])
  }

  lemma OpenReads(c: string)
    requires Continues(c)
    ensures ArrayLine(c) == Some((Items(c).value, false))
    ensures ArrayLine(Trim(c)) == ArrayLine(c)
    ensures ArrayLine(TrimRight(c)) == ArrayLine(c)
  {
    hide Items;
    OpenTrim(c, c);
    TrimTrimmed(Trim(c));
    OpenTrim(c, Trim(c));
    OpenTrim(c, TrimRight(c));
  }

  lemma OpenTrim(c: string, d: string)
    requires Continues(c) && (d == c || d == Trim(c) || d == TrimRight(c))
    ensures ArrayLine(d) == Some((Items(c).value, false))
  {
    hide Items, LastVisible, TrimLeft, TrimRight, IsSpace;
    ItemsTrimmed(c);
    ItemsTrimmed(d);
    LastOfTrim(c);
    LastOfTrim(d);
  }

  lemma LastOfTrim(s: string)
    ensures LastVisible(Trim(s)) == LastVisible(s)
    ensures LastVisible(TrimRight(s)) == LastVisible(s)
    ensures Trim(s) == "" <==> Blank(s)
    ensures Trim(s) != "" ==> LastVisible(s) == Some(Trim(s)[|Trim(s)| - 1])
  {
    TrimLeftSuffix(s);
    TrimRightPrefix(s);
    TrimRightPrefix(TrimLeft(s));
  }

  /** A closing line reads as its list, well formed or not. */
  lemma ClosedLine(list: string, space: string)
    requires Blank(space)
    ensures Trim(list + "]" + space) != ""
    ensures ArrayLine(Trim(list + "]" + space)) ==
            match Items(list) case None => None case Some(values) => Some((values, true))
    ensures ArrayLine(TrimRight(list + "]" + space)) == ArrayLine(Trim(list + "]" + space))
  {
    hide Items, LastVisible, TrimLeft, IsSpace;
    TrimClosed(list, space);
    var left := TrimLeft(list) + "]";
    assert left[..|left| - 1] == TrimLeft(list);
    assert left[|left| - 1..] == "]";
    ItemsTrimLeft(list);
    TrimTrimmed(Trim(list + "]" + space));
    TrimOfTrimRight(list, space);
  }

  lemma TrimOfTrimRight(list: string, space: string)
    requires Blank(space)
    ensures TrimRight(list + "]" + space) == list + "]"
    ensures Trim(list + "]") == Trim(list + "]" + space)
  {
    TrimRightBlank(list + "]", space);
    assert TrimRight(list + "]") == list + "]";
    TrimClosed(list, space);
    TrimClosed(list, "");
    assert list + "]" + "" == list + "]";
  }

  /** The result of applying a whole array and going on outside it. */
  function Finish(env: Env, st: State, key: string, list: string, more: seq<string>): Option<State> {
    match Items(list)
    case None => None
    case Some(values) =>
      match ApplyArray(env, st.cfg, st.section, key, values)
      case None => None
      case Some(cfg) => ParseLines(env, st.(cfg := cfg, arrayKey := ""), more)
  }

  /** `texts` are lines that, comments removed, hold `contents`; the last one closes the array. */
  predicate BodyOf(texts: seq<string>, contents: seq<string>, space: string) {
    && |texts| == |contents| > 0
    && Blank(space)
    && (forall i :: 0 <= i < |contents| - 1 ==> StripComment(texts[i]) == contents[i] && Continues(contents[i]))
    && StripComment(texts[|texts| - 1]) == contents[|contents| - 1] + "]" + space
  }

  lemma BodyStep(env: Env, st: State, text: string, c: string)
    requires st.arrayKey != "" && StripComment(text) == c && Continues(c)
    ensures LineStep(env, st, text) ==
            if Blank(c) then Some(st)
            else
              match ApplyArray(env, st.cfg, st.section, st.arrayKey, Items(c).value)
              case None => None
              case Some(cfg) => Some(st.(cfg := cfg))
  {
    hide Items, ApplyArray, ArrayLine, Trim, TrimRight, LastVisible, StripComment;
    OpenReads(c);
    LastOfTrim(c);
  }

  lemma CloseStep(env: Env, st: State, text: string, c: string, space: string)
    requires st.arrayKey != "" && Blank(space) && StripComment(text) == c + "]" + space
    ensures LineStep(env, st, text) ==
            match Items(c)
            case None => None
            case Some(values) =>
              match ApplyArray(env, st.cfg, st.section, st.arrayKey, values)
              case None => None
              case Some(cfg) => Some(st.(cfg := cfg, arrayKey := ""))
  {
    hide Items, ApplyArray, ArrayLine, Trim, TrimRight, LastVisible, StripComment;
    ClosedLine(c, space);
  }

  lemma BlankItems(c: string)
    requires Blank(c)
    ensures Items(c) == Some([])
  {
    TrimLeftSuffix(c);
  }

  /** Applying one line's list and then finishing is finishing with both lists. */
  lemma FinishConcat(env: Env, st: State, key: string, c: string, list: string, more: seq<string>)
    requires Continues(c)
    ensures Finish(env, st, key, c + list, more) ==
            match ApplyArray(env, st.cfg, st.section, key, Items(c).value)
            case None => None
            case Some(cfg) => Finish(env, st.(cfg := cfg), key, list, more)
    ensures Blank(c) ==> Finish(env, st, key, c + list, more) == Finish(env, st, key, list, more)
  {
    hide Items, ApplyArray, ParseLines, LastVisible;
    ItemsConcat(c, list);
    var u := Items(c).value;
    if Items(list).Some? {
      ApplyConcat(env, st.cfg, st.section, key, u, Items(list).value);
      if Blank(c) {
        BlankItems(c);
        assert u + Items(list).value == Items(list).value;
      }
    } else if Blank(c) {
      BlankItems(c);
    }
  }

  lemma ParseStep(env: Env, st: State, text: string, more: seq<string>)
    ensures ParseLines(env, st, [text] + more) ==
            match LineStep(env, st, text) case None => None case Some(st') => ParseLines(env, st', more)
  {
    hide LineStep;
    assert ([text] + more)[1..] == more;
  }

  /** Inside an array, the lines up to the closing one act as their joined list. */
  lemma {:induction false} BodyActsJoined(env: Env, st: State, texts: seq<string>, contents: seq<string>, space: string,
                                          more: seq<string>)
    requires st.arrayKey != "" && BodyOf(texts, contents, space)
    ensures ParseLines(env, st, texts + more) == Finish(env, st, st.arrayKey, Join(contents), more)
    decreases |texts|
  {
    hide LineStep, Items, ApplyArray, ParseLines, LastVisible, StripComment;
    assert texts + more == [texts[0]] + (texts[1..] + more);
    ParseStep(env, st, texts[0], texts[1..] + more);
    if |texts| == 1 {
      CloseStep(env, st, texts[0], contents[0], space);
      assert texts[1..] + more == more;
      assert contents[1..] == [];
      assert Join(contents) == contents[0] + "" == contents[0];
    } else {
      var c := contents[0];
      assert Continues(c);
      BodyStep(env, st, texts[0], c);
      FinishConcat(env, st, st.arrayKey, c, Join(contents[1..]), more);
      assert BodyOf(texts[1..], contents[1..], space);
      match LineStep(env, st, texts[0])
      case None =>
      case Some(st') => BodyActsJoined(env, st', texts[1..], contents[1..], space, more);
    }
  }

  /** The line that opens an array and leaves it open. */
  lemma OpenStep(env: Env, st: State, text: string, k: string, key: string, w: string, c: string)
    requires st.arrayKey == "" && KeyText(k, key) && Blank(w) && Continues(c)
    requires StripComment(text) == k + "=" + w + "[" + c
    ensures LineStep(env, st, text) ==
            if Blank(c) then Some(st.(arrayKey := key))
            else
              match ApplyArray(env, st.cfg, st.section, key, Items(c).value)
              case None => None
              case Some(cfg) => Some(st.(cfg := cfg, arrayKey := key))
  {
    hide Items, ApplyArray, ArrayLine, Trim, TrimRight, LastVisible, StripComment, LineStep, KeyText;
    var v := "[" + c;
    assert k + "=" + w + "[" + c == k + "=" + w + v;
    assert !IsSpace('[');
    AssignmentStep(env, st, text, k, key, w, v);
    TrimRightAfter("[", c);
    assert ("[" + TrimRight(c))[1..] == TrimRight(c);
    OpenReads(c);
    TrimRightPrefix(c);
  }

  /** The line that opens an array and closes it. */
  lemma WholeStep(env: Env, st: State, text: string, k: string, key: string, w: string, list: string, space: string)
    requires st.arrayKey == "" && KeyText(k, key) && Blank(w) && Blank(space)
    requires StripComment(text) == k + "=" + w + "[" + list + "]" + space
    ensures LineStep(env, st, text) ==
            match Items(list)
            case None => None
            case Some(values) =>
              match ApplyArray(env, st.cfg, st.section, key, values)
              case None => None
              case Some(cfg) => Some(st.(cfg := cfg, arrayKey := ""))
  {
    hide Items, ApplyArray, ArrayLine, Trim, TrimRight, LastVisible, StripComment, LineStep, KeyText;
    var c := list + "]" + space;
    var v := "[" + c;
    assert k + "=" + w + "[" + list + "]" + space == k + "=" + w + v;
    assert !IsSpace('[');
    AssignmentStep(env, st, text, k, key, w, v);
    TrimRightAfter("[", c);
    assert ("[" + TrimRight(c))[1..] == TrimRight(c);
    ClosedLine(list, space);
    TrimOfTrimRight(list, space);
    assert TrimRight(c) != "";
  }

  // ---------- The empty key ----------

  /** A text of quoted strings with nothing between them but white space and commas, read from
      inside or outside a string, ends outside. */
  predicate Quoted(s: string, inString: bool, escaped: bool) {
    if s == "" then !inString && !escaped
    else if escaped then Quoted(s[1..], inString, false)
    else if s[0] == '"' then Quoted(s[1..], !inString, false)
    else if inString then Quoted(s[1..], true, s[0] == '\\')
    else (IsSpace(s[0]) || s[0] == ',') && Quoted(s[1..], false, false)
  }

  /** No text can be read both ways: quotes would match and not match. */
  lemma {:induction false} QuotedOneWay(s: string)
    ensures !(Quoted(s, true, false) && Quoted(s, false, false))
  {
    if s != "" {
      QuotedOneWay(s[1..]);
    }
  }

  lemma {:induction false} QuotedBlank(s: string)
    ensures Quoted(s, false, false) == Quoted(TrimLeft(s), false, false)
  {
    if s != "" && IsSpace(s[0]) {
      QuotedBlank(s[1..]);
    }
  }

  lemma {:induction false} QuotedString(s: string, escaped: bool)
    requires QuoteEnd(s, escaped).Some?
    ensures Quoted(s, true, escaped) == Quoted(s[QuoteEnd(s, escaped).value + 1..], false, false)
  {
    if escaped || s[0] != '"' {
      var e := !escaped && s[0] == '\\';
      QuotedString(s[1..], e);
      var k := QuoteEnd(s[1..], e).value;
      assert s[1..][k + 1..] == s[k + 2..];
    }
  }

  lemma {:induction false} ItemsQuoted(list: string)
    requires Items(list).Some?
    ensures Quoted(list, false, false)
    decreases |list|
  {
    hide Quoted, FirstItem;
    QuotedBlank(list);
    var t := TrimLeft(list);
    QuotedNothing();
    if t != "" {
      FirstItemQuoted(t);
      var rest := FirstItem(t).value.1;
      if rest != "" {
        ItemsQuoted(rest[1..]);
        QuotedComma(rest);
      }
    }
  }

  lemma QuotedNothing()
    ensures Quoted("", false, false)
  {}

  lemma QuotedComma(rest: string)
    requires rest != "" && rest[0] == ','
    ensures Quoted(rest, false, false) == Quoted(rest[1..], false, false)
  {}

  lemma FirstItemQuoted(t: string)
    requires FirstItem(t).Some?
    ensures Quoted(t, false, false) == Quoted(FirstItem(t).value.1, false, false)
  {
    var k := QuoteEnd(t[1..], false).value;
    QuotedString(t[1..], false);
    assert t[1..][k + 1..] == t[k + 2..];
    QuotedBlank(t[k + 2..]);
  }

  /** An equals sign in such a text stands inside a string. */
  lemma {:induction false} EqualsInside(s: string, inString: bool, escaped: bool, cut: nat)
    requires Quoted(s, inString, escaped) && cut < |s| && s[cut] == '='
    requires escaped ==> inString
    ensures Quoted(s[cut + 1..], true, false)
  {
    if cut > 0 {
      assert s[1..][cut - 1] == s[cut] && s[1..][cut..] == s[cut + 1..];
      if escaped {
        EqualsInside(s[1..], inString, false, cut - 1);
      } else if s[0] == '"' {
        EqualsInside(s[1..], !inString, false, cut - 1);
      } else if inString {
        EqualsInside(s[1..], true, s[0] == '\\', cut - 1);
      } else {
        EqualsInside(s[1..], false, false, cut - 1);
      }
    }
  }

  lemma {:induction false} QuotedInside(w: string, s: string)
    requires Quoted(w + s, true, false) && Blank(w)
    ensures Quoted(s, true, false)
  {
    if w == "" {
      assert w + s == s;
    } else {
      assert (w + s)[1..] == w[1..] + s;
      TrimLeftSuffix(w);
      BlankTail(w);
      QuotedInside(w[1..], s);
    }
  }

  lemma BlankTail(w: string)
    requires w != "" && Blank(w)
    ensures IsSpace(w[0]) && Blank(w[1..])
  {
    TrimLeftSuffix(w);
    TrimLeftSuffix(w[1..]);
  }

  /** What follows an equals sign in a list is not an array: its quotes do not match. */
  lemma TailIsNoArray(e: string, cut: nat, w: string, s: string)
    requires Items(e).Some? && cut < |e| && e[cut] == '=' && Blank(w)
    requires e[cut + 1..] == w + "[" + s
    ensures Items(s).None?
  {
    hide Items, LastVisible, Quoted;
    ItemsQuoted(e);
    EqualsInside(e, false, false, cut);
    assert e[cut + 1..] == w + ("[" + s);
    QuotedInside(w, "[" + s);
    BracketInside(s);
    QuotedOneWay(s);
    if Items(s).Some? {
      ItemsQuoted(s);
    }
  }

  lemma BracketInside(s: string)
    requires Quoted("[" + s, true, false)
    ensures Quoted(s, true, false)
  {
    assert ("[" + s)[1..] == s;
  }

  /** A line of an array, read outside any array, fails: with or without an equals sign. */
  lemma ListLineFails(env: Env, st: State, text: string, e: string, closing: string)
    requires st.arrayKey == "" && (closing == "" || closing == "]")
    requires Items(e).Some? && Trim(StripComment(text)) == e + closing
    requires closing == "" ==> e != "" && e[|e| - 1] == ','
    requires e == "" || e[0] == '"'
    ensures LineStep(env, st, text) == None
  {
    hide Items, Trim, StripComment, KeyValue, ParseKey, IndexOf;
    var line := e + closing;
    assert line != "" && line[0] != '[';
    var cut := IndexOf(line, '=');
    if cut.Some? {
      assert cut.value < |e|;
      assert line[cut.value + 1..] == e[cut.value + 1..] + closing;
      match ParseKey(Trim(line[..cut.value]))
      case None =>
      case Some(key) => ListValueFails(env, st, key, e, cut.value, closing);
    }
  }

  lemma ListValueFails(env: Env, st: State, key: string, e: string, cut: nat, closing: string)
    requires closing == "" || closing == "]"
    requires Items(e).Some? && cut < |e| && e[cut] == '='
    requires closing == "" ==> e[|e| - 1] == ','
    ensures KeyValue(env, st, key, Trim(e[cut + 1..] + closing)) == None
  {
    hide Items, Trim, TrimLeft, TrimRight, ArrayLine, IsSpace, KeyValue;
    LastCharacter(e, cut, closing);
    var value := Trim(e[cut + 1..] + closing);
    if value[0] == '[' {
      TailReads(e, cut, closing);
    }
    OnlyArrays(env, st, key, value);
  }

  /** A value that ends in a comma or a bracket can only be an array. */
  lemma OnlyArrays(env: Env, st: State, key: string, value: string)
    requires value != "" && (value[|value| - 1] == ',' || value[|value| - 1] == ']')
    requires Trim(value) == value
    requires value[0] == '[' ==> ArrayLine(value[1..]) == None
    ensures KeyValue(env, st, key, value) == None
  {
    hide ArrayLine, Trim, ApplyArray, ApplyTable, ApplyValue, InlineEntries, Unescape;
    FirstIsBracket(value);
    assert ParseString(value) == None;
    assert !HasSuffix(value, "}");
  }

  lemma LastCharacter(e: string, cut: nat, closing: string)
    requires (closing == "" || closing == "]") && cut < |e| && e[cut] == '='
    requires closing == "" ==> e[|e| - 1] == ','
    ensures var x := e[cut + 1..] + closing;
            && x != "" && x[|x| - 1] == (if closing == "" then ',' else ']')
            && TrimRight(TrimLeft(x)) == TrimLeft(x) && Trim(x) != ""
            && Trim(x)[|Trim(x)| - 1] == x[|x| - 1] && Trim(Trim(x)) == Trim(x)
  {
    var x := e[cut + 1..] + closing;
    TrimLeftSuffix(x);
    VisibleSuffix(x);
    TrimTrimmed(Trim(x));
  }

  lemma VisibleSuffix(x: string)
    requires x != "" && !IsSpace(x[|x| - 1])
    ensures TrimLeft(x) != "" && TrimLeft(x)[|TrimLeft(x)| - 1] == x[|x| - 1]
  {
    TrimLeftSuffix(x);
  }

  lemma TailReads(e: string, cut: nat, closing: string)
    requires closing == "" || closing == "]"
    requires Items(e).Some? && cut < |e| && e[cut] == '='
    requires closing == "" ==> e[|e| - 1] == ','
    requires var value := Trim(e[cut + 1..] + closing); value != "" && value[0] == '['
    ensures ArrayLine(Trim(e[cut + 1..] + closing)[1..]) == None
  {
    hide Items, Trim, TrimLeft, TrimRight, LastVisible, ArrayLine, IsSpace;
    var x := e[cut + 1..] + closing;
    LastCharacter(e, cut, closing);
    var value := TrimLeft(x);
    TrimIsLeft(x);
    TrimLeftSuffix(x);
    var w := x[..|x| - |value|];
    assert x == w + value;
    if closing == "" {
      TailReadsOpen(e, cut, w, value);
    } else {
      TailReadsClosed(e, cut, w, value);
    }
  }

  lemma TailReadsOpen(e: string, cut: nat, w: string, value: string)
    requires Items(e).Some? && cut < |e| && e[cut] == '=' && e[|e| - 1] == ',' && Blank(w)
    requires e[cut + 1..] == w + value && value != "" && value[0] == '[' && value[|value| - 1] == ','
    ensures ArrayLine(value[1..]) == None
  {
    hide Items, LastVisible, ArrayLine, IsSpace;
    var s := value[1..];
    assert value == "[" + s;
    assert w + value == w + "[" + s;
    TailIsNoArray(e, cut, w, s);
    assert s != "" && s[|s| - 1] == ',';
    CommaLine(s);
  }

  lemma TailReadsClosed(e: string, cut: nat, w: string, value: string)
    requires Items(e).Some? && cut < |e| && e[cut] == '=' && Blank(w)
    requires e[cut + 1..] + "]" == w + value && value != "" && value[0] == '[' && value[|value| - 1] == ']'
    ensures ArrayLine(value[1..]) == None
  {
    hide Items, LastVisible, ArrayLine, IsSpace, Trim, TrimRight;
    var s := value[1..|value| - 1];
    assert value[1..] == s + "]";
    var x := e[cut + 1..] + "]";
    assert w + value == (w + "[" + s) + "]";
    assert x[..|x| - 1] == e[cut + 1..];
    assert e[cut + 1..] == w + "[" + s;
    TailIsNoArray(e, cut, w, s);
    EmptyIsBlank();
    ClosedLine(s, "");
    TrimOfTrimRight(s, "");
    assert s + "]" + "" == s + "]";
  }

  lemma EmptyIsBlank()
    ensures Blank("")
  {}

  lemma TrimIsLeft(x: string)
    requires TrimRight(TrimLeft(x)) == TrimLeft(x)
    ensures Trim(x) == TrimLeft(x)
  {}

  lemma CommaLine(s: string)
    requires s != "" && s[|s| - 1] == ',' && Items(s).None?
    ensures ArrayLine(s) == None
  {
    hide Items, IsSpace;
    assert !IsSpace(',') by {
      CommaVisible();
    }
    VisibleSuffix(s);
    ItemsTrimmed(s);
  }

  lemma CommaVisible()
    ensures !IsSpace(',')
  {}

  /** No array has the empty key, so its lines end in failure wherever they are cut. */
  lemma {:induction false} EmptyKeyFails(env: Env, st: State, texts: seq<string>, contents: seq<string>, space: string,
                                         more: seq<string>)
    requires st.arrayKey == "" && BodyOf(texts, contents, space) && Items(contents[|contents| - 1]).Some?
    ensures ParseLines(env, st, texts + more) == None
    decreases |texts|
  {
    hide LineStep, Items, ParseLines, LastVisible, StripComment, Trim, TrimLeft, TrimRight, IsSpace;
    assert texts + more == [texts[0]] + (texts[1..] + more);
    ParseStep(env, st, texts[0], texts[1..] + more);
    var c := contents[0];
    if |texts| == 1 {
      CloseFails(env, st, texts[0], c, space);
    } else {
      assert Continues(c);
      if Blank(c) {
        BlankStep(env, st, texts[0]);
        assert BodyOf(texts[1..], contents[1..], space);
        EmptyKeyFails(env, st, texts[1..], contents[1..], space, more);
      } else {
        ContinueFails(env, st, texts[0], c);
      }
    }
  }

  lemma BlankStep(env: Env, st: State, text: string)
    requires Blank(StripComment(text))
    ensures LineStep(env, st, text) == Some(st)
  {
    hide StripComment;
    LastOfTrim(StripComment(text));
  }

  lemma CloseFails(env: Env, st: State, text: string, c: string, space: string)
    requires st.arrayKey == "" && Blank(space) && Items(c).Some? && StripComment(text) == c + "]" + space
    ensures LineStep(env, st, text) == None
  {
    hide Items, LineStep, StripComment, LastVisible;
    TrimClosed(c, space);
    ItemsTrimLeft(c);
    StartsQuoted(TrimLeft(c));
    ListLineFails(env, st, text, TrimLeft(c), "]");
  }

  lemma ContinueFails(env: Env, st: State, text: string, c: string)
    requires st.arrayKey == "" && Continues(c) && !Blank(c) && StripComment(text) == c
    ensures LineStep(env, st, text) == None
  {
    hide Items, LineStep, StripComment, LastVisible, TrimLeft, TrimRight;
    ItemsTrimmed(c);
    LastOfTrim(c);
    StartsQuoted(Trim(c));
    assert Trim(c) + "" == Trim(c);
    ListLineFails(env, st, text, Trim(c), "");
  }

  lemma StartsQuoted(e: string)
    requires Items(e).Some? && (e != "" ==> !IsSpace(e[0]))
    ensures e == "" || e[0] == '"'
  {
    hide QuoteEnd, Unescape;
  }

  /** Main result: an array written over any number of lines, each but the last ending with a
      comma or blank, with any comments, does exactly what it does written on one line. */
  lemma SplittingKeepsMeaning(env: Env, st: State, first: string, texts: seq<string>, one: string, k: string, key: string,
                              w: string, contents: seq<string>, space: string, more: seq<string>)
    requires st.arrayKey == "" && KeyText(k, key) && Blank(w)
    requires |contents| > 1 && Continues(contents[0]) && BodyOf(texts, contents[1..], space)
    requires key == "" ==> Items(contents[|contents| - 1]).Some?
    requires StripComment(first) == k + "=" + w + "[" + contents[0]
    requires StripComment(one) == k + "=" + w + "[" + Join(contents) + "]" + space
    ensures ParseLines(env, st, [first] + texts + more) == ParseLines(env, st, [one] + more)
  {
    hide LineStep, Items, ApplyArray, ParseLines, LastVisible, StripComment, KeyText;
    assert [first] + texts + more == [first] + (texts + more);
    ParseStep(env, st, first, texts + more);
    ParseStep(env, st, one, more);
    OpenStep(env, st, first, k, key, w, contents[0]);
    WholeStep(env, st, one, k, key, w, Join(contents), space);
    if key == "" {
      NoEmptyArray(env, st);
      if Blank(contents[0]) {
        EmptyKeyFails(env, st, texts, contents[1..], space, more);
      }
    } else {
      FinishConcat(env, st, key, contents[0], Join(contents[1..]), more);
      match LineStep(env, st, first)
      case None =>
      case Some(st') => BodyActsJoined(env, st', texts, contents[1..], space, more);
    }
  }

  lemma NoEmptyArray(env: Env, st: State)
    ensures forall values :: ApplyArray(env, st.cfg, st.section, "", values) == None
  {
    hide Fill;
  }
}
