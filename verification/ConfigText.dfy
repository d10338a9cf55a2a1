/** Configuration text: its lines, and the arrays a printer writes into it. */
module ConfigText {
  import opened ConfigArrays
  import opened ConfigFile
  import opened Text
  import opened Toml
  import opened Wrappers

  // ---------- Lines ----------

  function DropCR(line: string): string {
    if HasSuffix(line, "\r") then line[..|line| - 1] else line
  }

  /** The scanner's lines: split at newlines, one carriage return dropped from each. */
  function Lines(raw: string): seq<string>
    decreases |raw|
  {
    if raw == "" then []
    else
      match IndexOf(raw, '\n')
      case None => [DropCR(raw)]
      case Some(i) => [DropCR(raw[..i])] + Lines(raw[i + 1..])
  }

  lemma FirstLine(line: string, rest: string)
    requires '\n' !in line
    ensures Lines(line + "\n" + rest) == [DropCR(line)] + Lines(rest)
  {
    hide IndexOf;
    IndexAfter(line, '\n', rest);
    var raw := line + "\n" + rest;
    assert raw == line + ['\n'] + rest;
    assert raw[..|line|] == line && raw[|line| + 1..] == rest;
  }

  // ---------- Texts with comments ----------

  /** The comment scanner passes over all of `s` and is outside a string after it. */
  predicate Settled(s: string, inString: bool, escaped: bool) {
    if s == "" then !inString && !escaped
    else if escaped then Settled(s[1..], inString, false)
    else if s[0] == '\\' && inString then Settled(s[1..], true, true)
    else if s[0] == '"' then Settled(s[1..], !inString, false)
    else if s[0] == '#' && !inString then false
    else Settled(s[1..], inString, false)
  }

  lemma {:induction false} KeptSettled(s: string, t: string, inString: bool, escaped: bool)
    requires Settled(s, inString, escaped)
    ensures Kept(s + t, inString, escaped) == |s| + Kept(t, false, false)
  {
    if s == "" {
      assert s + t == t;
    } else {
      assert (s + t)[1..] == s[1..] + t;
      if escaped {
        KeptSettled(s[1..], t, inString, false);
      } else if s[0] == '\\' && inString {
        KeptSettled(s[1..], t, true, true);
      } else if s[0] == '"' {
        KeptSettled(s[1..], t, !inString, false);
      } else {
        KeptSettled(s[1..], t, inString, false);
      }
    }
  }

  lemma {:induction false} PlainSettled(s: string)
    requires '"' !in s && '#' !in s
    ensures Settled(s, false, false)
  {
    if s != "" {
      PlainSettled(s[1..]);
    }
  }

  /** A key that can be written bare. */
  predicate BareKey(key: string) {
    && key != "" && key[0] != '['
    && (forall i :: 0 <= i < |key| ==> !IsSpace(key[i]) && key[i] !in {'=', '"', '#'})
  }

  /** Every such key is read as itself. */
  lemma BareKeyReads(key: string)
    requires BareKey(key)
    ensures KeyText(key, key) && Settled(key, false, false)
  {
    PlainSettled(key);
    TrimTrimmed(key);
    FirstIsBracket(key);
    assert IsSpace(' ') && IsSpace('\t') && IsSpace('\r') && IsSpace('\n');
    assert !HasPrefix(key, "\"") by {
      FirstIsQuote(key);
    }
  }

  predicate Comment(t: string) {
    t != "" ==> t[0] == '#'
  }

  lemma OpenText(k: string, w: string, list: string, t: string)
    requires Settled(k, false, false) && Blank(w) && Items(list).Some? && Comment(t)
    ensures StripComment(k + "=" + w + "[" + list + t) == k + "=" + w + "[" + list
  {
    hide Items, LastVisible;
    HeadKept(k, w, list + t);
    KeptItems(list, t);
    assert Kept(t, false, false) == 0;
    var x := k + "=" + w + "[" + list;
    assert x + t == k + "=" + w + "[" + (list + t);
    assert (x + t)[..|x|] == x;
  }

  lemma HeadKept(k: string, w: string, t: string)
    requires Settled(k, false, false) && Blank(w)
    ensures Kept(k + "=" + w + "[" + t, false, false) == |k| + 1 + |w| + 1 + Kept(t, false, false)
  {
    hide LastVisible, Kept, Settled;
    assert k + "=" + w + "[" + t == k + ("=" + (w + ("[" + t)));
    KeptSettled(k, "=" + (w + ("[" + t)), false, false);
    KeptPlain('=', w + ("[" + t));
    KeptBlank(w, "[" + t);
    KeptPlain('[', t);
  }

  lemma WholeText(k: string, w: string, list: string, space: string, t: string)
    requires Settled(k, false, false) && Blank(w) && Items(list).Some? && Blank(space) && Comment(t)
    ensures StripComment(k + "=" + w + "[" + list + "]" + space + t) == k + "=" + w + "[" + list + "]" + space
  {
    hide Items, LastVisible;
    HeadKept(k, w, list + "]" + space + t);
    ClosedKept(list, space, t);
    assert Kept(t, false, false) == 0;
    var x := k + "=" + w + "[" + list + "]" + space;
    assert x + t == k + "=" + w + "[" + (list + "]" + space + t);
    assert (x + t)[..|x|] == x;
  }

  lemma ListText(list: string, t: string)
    requires Items(list).Some? && Comment(t)
    ensures StripComment(list + t) == list
  {
    hide Items;
    KeptItems(list, t);
    assert Kept(t, false, false) == 0;
    assert (list + t)[..|list|] == list;
  }

  lemma CloseText(list: string, space: string, t: string)
    requires Items(list).Some? && Blank(space) && Comment(t)
    ensures StripComment(list + "]" + space + t) == list + "]" + space
  {
    hide Items, LastVisible;
    ClosedKept(list, space, t);
    assert Kept(t, false, false) == 0;
    var x := list + "]" + space;
    assert (x + t)[..|x|] == x;
  }

  // ---------- Arrays over lines, as text ----------

  /** The lines after the first: each holds a list and a comment, the last one closes. */
  function BodyTexts(contents: seq<string>, comments: seq<string>, space: string): (r: seq<string>)
    requires |contents| == |comments|
    ensures |r| == |contents|
    decreases |contents|
  {
    if contents == [] then []
    else if |contents| == 1 then [contents[0] + "]" + space + comments[0]]
    else [contents[0] + comments[0]] + BodyTexts(contents[1..], comments[1..], space)
  }

  lemma {:induction false} BodyIsBody(contents: seq<string>, comments: seq<string>, space: string)
    requires |contents| == |comments| > 0 && Blank(space)
    requires forall i :: 0 <= i < |contents| - 1 ==> Continues(contents[i])
    requires Items(contents[|contents| - 1]).Some?
    requires forall i :: 0 <= i < |comments| ==> Comment(comments[i])
    ensures BodyOf(BodyTexts(contents, comments, space), contents, space)
    decreases |contents|
  {
    hide Items, StripComment, LastVisible;
    if |contents| == 1 {
      CloseText(contents[0], space, comments[0]);
    } else {
      assert Continues(contents[0]);
      ListText(contents[0], comments[0]);
      BodyIsBody(contents[1..], comments[1..], space);
    }
  }

  lemma {:induction false} JoinReads(contents: seq<string>)
    requires contents != []
    requires forall i :: 0 <= i < |contents| - 1 ==> Continues(contents[i])
    requires Items(contents[|contents| - 1]).Some?
    ensures Items(Join(contents)).Some?
  {
    hide Items, LastVisible;
    if |contents| == 1 {
      assert Join(contents) == contents[0] + Join([]) == contents[0];
    } else {
      assert Continues(contents[0]);
      JoinReads(contents[1..]);
      ItemsConcat(contents[0], Join(contents[1..]));
    }
  }

  /** Any well-formed lists, cut after commas and spread over lines with comments between them,
      parse to the same configuration, or fail alike, as on one line. */
  lemma SplitTextKeepsMeaning(env: Env, st: State, k: string, key: string, w: string, contents: seq<string>,
                              comments: seq<string>, space: string, comment: string, more: seq<string>)
    requires st.arrayKey == "" && KeyText(k, key) && Settled(k, false, false) && Blank(w)
    requires |contents| == |comments| > 1 && Blank(space)
    requires forall i :: 0 <= i < |contents| - 1 ==> Continues(contents[i])
    requires Items(contents[|contents| - 1]).Some?
    requires Comment(comment) && forall i :: 0 <= i < |comments| ==> Comment(comments[i])
    ensures ParseLines(env, st, [k + "=" + w + "[" + contents[0] + comments[0]]
                                + BodyTexts(contents[1..], comments[1..], space) + more)
         == ParseLines(env, st, [k + "=" + w + "[" + Join(contents) + "]" + space + comment] + more)
  {
    hide Items, StripComment, LastVisible, ParseLines, KeyText, Settled;
    assert Continues(contents[0]);
    OpenText(k, w, contents[0], comments[0]);
    BodyIsBody(contents[1..], comments[1..], space);
    JoinReads(contents);
    WholeText(k, w, Join(contents), space, comment);
    SplittingKeepsMeaning(env, st, k + "=" + w + "[" + contents[0] + comments[0],
                          BodyTexts(contents[1..], comments[1..], space),
                          k + "=" + w + "[" + Join(contents) + "]" + space + comment,
                          k, key, w, contents, space, more);
  }

  // ---------- The printed array ----------

  lemma {:induction false} EscapeNoNewline(s: string)
    requires '\n' !in s
    ensures '\n' !in Escape(s)
  {
    if s != "" {
      EscapeNoNewline(s[1..]);
    }
  }

  lemma {:induction false} PrintNoNewline(items: seq<string>)
    requires forall i :: 0 <= i < |items| ==> '\n' !in items[i]
    ensures '\n' !in Print(items)
    decreases |items|
  {
    if items != [] {
      EscapeNoNewline(items[0]);
      PrintNoNewline(items[1..]);
    }
  }

  /** Dropping a carriage return leaves a line's text alone: it only shortens the white space or
      the comment after it. */
  lemma DropCRAfter(x: string, space: string, t: string)
    requires x != "" && x[|x| - 1] != '\r' && Blank(space) && Comment(t)
    ensures exists space', t' :: Blank(space') && Comment(t') && DropCR(x + space + t) == x + space' + t'
  {
    var line := x + space + t;
    var n := |line| - 1;
    assert Blank(space) && Comment(t) && line == x + space + t;
    if t != "" {
      var t' := t[..|t| - 1];
      assert Blank(space) && Comment(t') && line[..n] == x + space + t';
    } else if space != "" {
      var space' := space[..|space| - 1];
      assert line[n] == space[|space| - 1];
      if IsSpace(line[n]) {
        assert Blank(space') && Comment("") && line[..n] == x + space' + "";
      }
    } else {
      assert line[n] == x[|x| - 1];
    }
  }

  /** Parser and printer undo each other on whole texts: a line that assigns the printed form of
      any newline-free strings to a key, with any comment, applies exactly those strings. */
  lemma PrintedArrayParses(env: Env, st: State, k: string, key: string, w: string, items: seq<string>, space: string,
                           comment: string, rest: string)
    requires st.arrayKey == "" && KeyText(k, key) && Settled(k, false, false) && Blank(w) && Blank(space) && Comment(comment)
    requires forall i :: 0 <= i < |items| ==> '\n' !in items[i]
    requires '\n' !in k + w + space + comment
    ensures ParseLines(env, st, Lines(k + "=" + w + "[" + Print(items) + "]" + space + comment + "\n" + rest)) ==
            match ApplyArray(env, st.cfg, st.section, key, items)
            case None => None
            case Some(cfg) => ParseLines(env, st.(cfg := cfg), Lines(rest))
  {
    hide Items, StripComment, LastVisible, ParseLines, KeyText, Settled, Print, DropCR, Lines, LineStep, ApplyArray;
    ItemsOfPrint(items);
    PrintNoNewline(items);
    var x := k + "=" + w + "[" + Print(items);
    var line := x + "]" + space + comment;
    assert '\n' !in line;
    FirstLine(line, rest);
    DropCRAfter(x + "]", space, comment);
    var space', comment' :|
      Blank(space') && Comment(comment') && DropCR(line) == x + "]" + space' + comment';
    WholeText(k, w, Print(items), space', comment');
    ParseStep(env, st, DropCR(line), Lines(rest));
    WholeStep(env, st, DropCR(line), k, key, w, Print(items), space');
  }
}
