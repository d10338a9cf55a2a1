/** The grammar of lists: which texts the list reader accepts, and what they hold. */
module TomlGrammar {
  import opened Text
  import opened Toml
  import opened Wrappers

  /** One item with the white space around it. */
  datatype Piece = Piece(before: string, raw: string, after: string)

  /** Between quotation marks stands a text whose first unescaped quotation mark is the last. */
  predicate Proper(p: Piece) {
    && Blank(p.before) && Blank(p.after)
    && |p.raw| >= 2 && p.raw[0] == '"' && QuoteEnd(p.raw[1..], false) == Some(|p.raw| - 2)
  }

  function Held(p: Piece): string
    requires Proper(p)
  {
    Unescape(p.raw[1..|p.raw| - 1])
  }

  /** Pieces with commas between them, and after the last one if the list is left open. */
  function Layout(ps: seq<Piece>, open: bool, tail: string): string {
    if ps == [] then tail
    else if |ps| == 1 && !open then ps[0].before + ps[0].raw + ps[0].after
    else ps[0].before + ps[0].raw + ps[0].after + "," + Layout(ps[1..], open, tail)
  }

  ghost predicate Spells(ps: seq<Piece>, values: seq<string>) {
    && |ps| == |values|
    && forall i :: 0 <= i < |ps| ==> Proper(ps[i]) && Held(ps[i]) == values[i]
  }

  /** `line` is the layout of pieces that hold `values`. */
  ghost predicate ListText(line: string, values: seq<string>) {
    exists ps, open, tail :: Blank(tail) && Spells(ps, values) && line == Layout(ps, open, tail)
  }

  lemma PieceReads(p: Piece, rest: string)
    requires Proper(p) && (rest == "" || rest[0] == ',')
    ensures var line := p.before + p.raw + p.after + rest;
            && TrimLeft(line) == p.raw + p.after + rest
            && FirstItem(p.raw + p.after + rest) == Some((Held(p), rest))
  {
    hide Unescape, LastVisible, TrimLeft, IsSpace, QuoteEnd;
    var more := p.after + rest;
    var t := p.raw + more;
    assert p.raw + p.after + rest == t && p.before + p.raw + p.after + rest == p.before + t;
    BlankBefore(p.before, t, '"');
    var n := |p.raw| - 2;
    QuoteEndConcat(p.raw[1..], more, false);
    RawCut(p.raw, more, n);
    if rest == "" {
      assert more == p.after;
      TrimLeftSuffix(p.after);
    } else {
      BlankBefore(p.after, rest, ',');
    }
  }

  lemma RawCut(raw: string, more: string, n: nat)
    requires |raw| == n + 2
    ensures var t := raw + more;
            t[0] == raw[0] && t[1..] == raw[1..] + more && t[1..n + 1] == raw[1..|raw| - 1] && t[n + 2..] == more
  {}

  lemma BlankBefore(w: string, t: string, c: char)
    requires Blank(w) && t != "" && t[0] == c && (c == '"' || c == ',')
    ensures TrimLeft(w + t) == t
  {
    hide LastVisible;
    TrimLeftSuffix(w);
    TrimLeftConcat(w, t);
    assert !IsSpace(c);
  }

  lemma {:induction false} LayoutReads(ps: seq<Piece>, open: bool, tail: string, values: seq<string>)
    requires Blank(tail) && Spells(ps, values)
    ensures Items(Layout(ps, open, tail)) == Some(values)
    decreases |ps|
  {
    hide FirstItem, LastVisible, Proper, Held, TrimLeft, Items;
    if ps == [] {
      BlankReads(tail);
    } else {
      assert Proper(ps[0]) && Held(ps[0]) == values[0];
      var head := ps[0].before + ps[0].raw + ps[0].after;
      var line := Layout(ps, open, tail);
      var last := |ps| == 1 && !open;
      var rest := if last then "" else "," + Layout(ps[1..], open, tail);
      assert line == head + rest;
      PieceReads(ps[0], rest);
      LayoutStep(line, values[0], rest);
      if last {
        assert values == [values[0]];
      } else {
        assert Spells(ps[1..], values[1..]);
        LayoutReads(ps[1..], open, tail, values[1..]);
        assert rest[1..] == Layout(ps[1..], open, tail);
        assert values == [values[0]] + values[1..];
      }
    }
  }

  lemma BlankReads(tail: string)
    requires Blank(tail)
    ensures Items(tail) == Some([])
  {
    TrimLeftSuffix(tail);
  }

  /** One step of the reader, from its first item and what follows it. */
  lemma LayoutStep(line: string, value: string, rest: string)
    requires FirstItem(TrimLeft(line)) == Some((value, rest)) && (rest == "" || rest[0] == ',')
    ensures rest == "" ==> Items(line) == Some([value])
    ensures rest != "" && Items(rest[1..]).Some? ==> Items(line) == Some([value] + Items(rest[1..]).value)
    ensures rest != "" && Items(rest[1..]).None? ==> Items(line) == None
  {
    hide QuoteEnd, Unescape;
  }

  /** What the reader's first item is cut out of. */
  lemma FirstPiece(line: string) returns (p: Piece)
    requires FirstItem(TrimLeft(line)).Some?
    ensures Proper(p) && Held(p) == FirstItem(TrimLeft(line)).value.0
    ensures line == p.before + p.raw + p.after + FirstItem(TrimLeft(line)).value.1
  {
    hide Unescape, LastVisible, TrimLeft, IsSpace, QuoteEnd;
    var t := TrimLeft(line);
    var k := QuoteEnd(t[1..], false).value;
    var follow := t[k + 2..];
    var before := BlankPart(line);
    var after := BlankPart(follow);
    p := Piece(before, t[..k + 2], after);
    QuoteEndCut(t[1..], false);
    TextCut(t, k);
    Assemble(before, t[..k + 2], after, TrimLeft(follow), follow, t, line);
  }

  /** The white space a text starts with. */
  lemma BlankPart(s: string) returns (w: string)
    ensures Blank(w) && s == w + TrimLeft(s)
  {
    hide LastVisible, TrimLeft;
    TrimLeftSuffix(s);
    w := s[..|s| - |TrimLeft(s)|];
  }

  lemma Assemble(before: string, raw: string, after: string, rest: string, follow: string, t: string, line: string)
    requires line == before + t && t == raw + follow && follow == after + rest
    ensures line == before + raw + after + rest
  {}

  lemma TextCut(t: string, k: nat)
    requires k + 2 <= |t|
    ensures var raw := t[..k + 2];
            raw[0] == t[0] && raw[1..] == t[1..][..k + 1] && raw[1..|raw| - 1] == t[1..k + 1] && t == raw + t[k + 2..]
  {}

  lemma {:induction false} QuoteEndCut(s: string, escaped: bool)
    requires QuoteEnd(s, escaped).Some?
    ensures var k := QuoteEnd(s, escaped).value; QuoteEnd(s[..k + 1], escaped) == Some(k)
  {
    var k := QuoteEnd(s, escaped).value;
    if escaped || s[0] != '"' {
      QuoteEndCut(s[1..], !escaped && s[0] == '\\');
      assert s[..k + 1][1..] == s[1..][..k];
    }
  }

  /** What a list that reads is made of. */
  lemma ItemsParts(line: string)
    requires Items(line).Some?
    ensures if TrimLeft(line) == "" then Items(line).value == []
            else
              && FirstItem(TrimLeft(line)).Some?
              && var (value, rest) := FirstItem(TrimLeft(line)).value;
              if rest == "" then Items(line).value == [value]
              else
                && |rest| <= |line| && rest[0] == ',' && Items(rest[1..]).Some?
                && Items(line).value == [value] + Items(rest[1..]).value
  {
    hide QuoteEnd, Unescape;
  }

  lemma LayoutOne(p: Piece)
    ensures Layout([p], false, "") == p.before + p.raw + p.after
  {}

  lemma LayoutMore(p: Piece, ps: seq<Piece>, open: bool, tail: string)
    ensures Layout([p] + ps, open || ps == [], tail) == p.before + p.raw + p.after + "," + Layout(ps, open, tail)
  {
    LayoutOpen(ps, open, tail);
    assert ([p] + ps)[1..] == ps;
  }

  lemma {:induction false} ItemsLaidOut(line: string)
    requires Items(line).Some?
    ensures ListText(line, Items(line).value)
    decreases |line|
  {
    hide FirstItem, LastVisible, Proper, Held, Spells, Items, TrimLeft, Layout, IsSpace;
    ItemsParts(line);
    NothingSpelled();
    if TrimLeft(line) == "" {
      TrimLeftSuffix(line);
      LayoutNothing(line);
      assert Blank(line) && Spells([], []) && line == Layout([], false, line);
    } else {
      var p := FirstPiece(line);
      var (value, rest) := FirstItem(TrimLeft(line)).value;
      if rest == "" {
        OneSpelled(p, [], []);
        assert [p] + [] == [p] && [value] + [] == [value];
        LayoutOne(p);
        assert p.before + p.raw + p.after + "" == p.before + p.raw + p.after;
        assert Blank("") && Spells([p], [value]) && line == Layout([p], false, "");
      } else {
        ItemsLaidOut(rest[1..]);
        var values := Items(rest[1..]).value;
        var ps, open, tail :| Blank(tail) && Spells(ps, values) && rest[1..] == Layout(ps, open, tail);
        OneSpelled(p, ps, values);
        LayoutMore(p, ps, open, tail);
        CommaFirst(p.before + p.raw + p.after, rest);
        assert Blank(tail) && Spells([p] + ps, [value] + values) && line == Layout([p] + ps, open || ps == [], tail);
      }
    }
  }

  lemma LayoutNothing(tail: string)
    ensures Layout([], false, tail) == tail
  {}

  lemma CommaFirst(head: string, rest: string)
    requires rest != "" && rest[0] == ','
    ensures head + rest == head + "," + rest[1..]
  {}

  lemma LayoutOpen(ps: seq<Piece>, open: bool, tail: string)
    ensures ps == [] ==> Layout(ps, true, tail) == Layout(ps, open, tail)
  {}

  lemma NothingSpelled()
    ensures Spells([], []) && Blank("")
  {}

  lemma OneSpelled(p: Piece, ps: seq<Piece>, values: seq<string>)
    requires Proper(p) && Spells(ps, values)
    ensures Spells([p] + ps, [Held(p)] + values)
  {
    hide Proper, Held;
  }

  /** Main result: the reader accepts exactly the lists of quoted strings with single commas
      between them, a trailing comma and white space allowed, and returns what they hold. */
  lemma ItemsMean(line: string, values: seq<string>)
    ensures Items(line) == Some(values) <==> ListText(line, values)
  {
    hide Items, Layout, Spells, LastVisible;
    if Items(line).Some? {
      ItemsLaidOut(line);
    }
    if ListText(line, values) {
      var ps, open, tail :| Blank(tail) && Spells(ps, values) && line == Layout(ps, open, tail);
      LayoutReads(ps, open, tail, values);
    }
  }

  /** Unescaping touches nothing but escaped quotation marks and backslashes. */
  lemma {:induction false} UnescapeKeeps(s: string)
    requires forall i :: 0 <= i < |s| - 1 && s[i] == '\\' ==> s[i + 1] != '"' && s[i + 1] != '\\'
    ensures Unescape(s) == s
  {
    if s != "" {
      forall i | 0 <= i < |s[1..]| - 1 && s[1..][i] == '\\'
        ensures s[1..][i + 1] != '"' && s[1..][i + 1] != '\\'
      {
        assert s[i + 1] == '\\';
      }
      UnescapeKeeps(s[1..]);
      assert s == [s[0]] + s[1..];
    }
  }
}
