/** The migration runner's statement parser, character by character. */
module Statements {
  import opened Relational

  // ----- Python's string operations -----

  /** Characters `str.strip` removes. */
  predicate IsSpace(c: char)
  {
    '\t' <= c <= '\r' || '\U{1c}' <= c <= ' ' || c == '\U{85}' || c == '\U{a0}' || c == '\U{1680}'
    || '\U{2000}' <= c <= '\U{200a}' || c == '\U{2028}' || c == '\U{2029}' || c == '\U{202f}' || c == '\U{205f}'
    || c == '\U{3000}'
  }

  /** Characters at which `str.splitlines` ends a line. */
  predicate IsBreak(c: char)
  {
    '\n' <= c <= '\r' || '\U{1c}' <= c <= '\U{1e}' || c == '\U{85}' || c == '\U{2028}' || c == '\U{2029}'
  }

  function LineEnd(s: string): (i: nat)
    ensures i <= |s| && (i < |s| ==> IsBreak(s[i])) && forall j :: 0 <= j < i ==> !IsBreak(s[j])
  {
    if s == [] || IsBreak(s[0]) then 0 else 1 + LineEnd(s[1..])
  }

  function SplitLines(s: string): seq<string>
    decreases |s|
  {
    if s == [] then []
    else
      var i := LineEnd(s);
      if i == |s| then [s]
      else [s[..i]] + SplitLines(s[i + (if s[i] == '\r' && i + 1 < |s| && s[i + 1] == '\n' then 2 else 1)..])
  }

  function Find(s: string, c: char): (i: nat)
    ensures i <= |s| && (i < |s| ==> s[i] == c) && forall j :: 0 <= j < i ==> s[j] != c
  {
    if s == [] || s[0] == c then 0 else 1 + Find(s[1..], c)
  }

  function Split(s: string, sep: char): (parts: seq<string>)
    ensures parts != []
    decreases |s|
  {
    var i := Find(s, sep);
    if i == |s| then [s] else [s[..i]] + Split(s[i + 1..], sep)
  }

  function Join(parts: seq<string>, sep: char): string
  {
    if parts == [] then []
    else if |parts| == 1 then parts[0]
    else parts[0] + [sep] + Join(parts[1..], sep)
  }

  function StripLeft(s: string): (t: string)
    ensures t != [] ==> !IsSpace(t[0])
    ensures forall c :: c in t ==> c in s
  {
    if s != [] && IsSpace(s[0]) then StripLeft(s[1..]) else s
  }

  function StripRight(s: string): (t: string)
    ensures t <= s && (t != [] ==> !IsSpace(t[|t| - 1]))
    ensures forall i :: |t| <= i < |s| ==> IsSpace(s[i])
  {
    if s != [] && IsSpace(s[|s| - 1]) then StripRight(s[..|s| - 1]) else s
  }

  function Strip(s: string): string
  {
    StripRight(StripLeft(s))
  }

  // ----- the parser -----

  predicate IsComment(line: string)
  {
    "--" <= Strip(line)
  }

  predicate Kept(line: string)
  {
    !IsComment(line)
  }

  function Keep(lines: seq<string>): seq<string>
  {
    Where(lines, Kept)
  }

  function NonBlank(chunks: seq<string>): seq<string>
  {
    if chunks == [] then [] else (if Strip(chunks[0]) != [] then [Strip(chunks[0])] else []) + NonBlank(chunks[1..])
  }

  function Parse(sql: string): seq<string>
  {
    NonBlank(Split(Join(Keep(SplitLines(sql)), '\n'), ';'))
  }

  // ----- what comes out -----

  predicate Trimmed(s: string)
  {
    s != [] && !IsSpace(s[0]) && !IsSpace(s[|s| - 1])
  }

  lemma StripTrims(s: string)
    ensures Strip(s) != [] ==> Trimmed(Strip(s))
    ensures Trimmed(s) ==> Strip(s) == s
    ensures forall c :: c in Strip(s) ==> c in s
  {
    var l := StripLeft(s);
    assert forall c :: c in StripRight(l) ==> c in l;
  }

  lemma {:induction false} NonBlankPieces(chunks: seq<string>, piece: string)
    requires piece in NonBlank(chunks) && forall chunk :: chunk in chunks ==> ';' !in chunk
    ensures Trimmed(piece) && ';' !in piece
  {
    StripTrims(chunks[0]);
    if Strip(chunks[0]) == [] || piece != Strip(chunks[0]) { NonBlankPieces(chunks[1..], piece); }
  }

  lemma {:induction false} SplitClean(s: string, sep: char)
    ensures forall p :: p in Split(s, sep) ==> sep !in p
    decreases |s|
  {
    var i := Find(s, sep);
    if i < |s| { SplitClean(s[i + 1..], sep); }
  }

  /** Whatever the input, every statement is non-blank, trimmed and free of semicolons. */
  lemma PiecesAreClean(sql: string, piece: string)
    requires piece in Parse(sql)
    ensures Trimmed(piece) && ';' !in piece
  {
    SplitClean(Join(Keep(SplitLines(sql)), '\n'), ';');
    NonBlankPieces(Split(Join(Keep(SplitLines(sql)), '\n'), ';'), piece);
  }

  // ----- printing -----

  datatype Item = Statement(text: string) | Comment(text: string)

  /** A statement the parser can carry: see the three conditions in turn. */
  ghost predicate Plain(text: string)
  {
    && Trimmed(text) && ';' !in text
    && (forall c :: c in text && IsBreak(c) ==> c == '\n')
    && (forall line :: line in Split(text, '\n') ==> !IsComment(line))
  }

  ghost predicate Printable(items: seq<Item>)
  {
    forall i :: 0 <= i < |items| ==> CanPrint(items[i])
  }

  ghost predicate CanPrint(x: Item)
  {
    match x
    case Statement(text) => Plain(text)
    case Comment(text) => IsComment(text) && forall c :: c in text ==> !IsBreak(c)
  }

  function Print(items: seq<Item>): string
  {
    if items == [] then []
    else
      (match items[0]
       case Statement(text) => text + [';', '\n']
       case Comment(text) => text + ['\n'])
      + Print(items[1..])
  }

  function Texts(items: seq<Item>): seq<string>
  {
    if items == [] then [] else (if items[0].Statement? then [items[0].text] else []) + Texts(items[1..])
  }

  // ----- lines survive -----

  lemma FindAt(s: string, c: char, i: nat)
    requires i < |s| && s[i] == c && forall j :: 0 <= j < i ==> s[j] != c
    ensures Find(s, c) == i
  {
  }

  lemma LineEndAt(s: string, i: nat)
    requires i < |s| && IsBreak(s[i]) && forall j :: 0 <= j < i ==> !IsBreak(s[j])
    ensures LineEnd(s) == i
  {
  }

  lemma LineOff(line: string, rest: string)
    requires forall c :: c in line ==> !IsBreak(c)
    ensures SplitLines(line + ['\n'] + rest) == [line] + SplitLines(rest)
  {
    var s := line + ['\n'] + rest;
    LineEndAt(s, |line|);
    hide LineEnd, IsBreak;
    assert s[..|line|] == line && s[|line| + 1..] == rest;
  }

  lemma SplitOff(a: string, b: string, sep: char)
    requires sep !in a
    ensures Split(a + [sep] + b, sep) == [a] + Split(b, sep)
  {
    var s := a + [sep] + b;
    FindAt(s, sep, |a|);
    assert s[..|a|] == a && s[|a| + 1..] == b;
  }

  lemma Cut(line: string, rest: string, b: string, sep: char)
    ensures (line + [sep] + rest) + [sep] + b == line + [sep] + (rest + [sep] + b)
  {
  }

  /** Lines ended by a plain newline are split off one by one. */
  lemma {:induction false} LinesThenRest(a: string, b: string)
    requires forall c :: c in a && IsBreak(c) ==> c == '\n'
    ensures SplitLines(a + ['\n'] + b) == Split(a, '\n') + SplitLines(b)
    decreases |a|
  {
    var i := Find(a, '\n');
    hide SplitLines, Find, IsBreak;
    if i == |a| {
      LineOff(a, b);
    } else {
      var line, rest := a[..i], a[i + 1..];
      LinesThenRest(rest, b);
      LineOff(line, rest + ['\n'] + b);
      hide Split;
      Cut(line, rest, b, '\n');
      assert a == line + ['\n'] + rest;
      SplitOff(line, rest, '\n');
    }
  }

  /** A semicolon at the end of a line does not make it a comment. */
  lemma {:induction false} SemicolonKeepsLine(line: string)
    ensures IsComment(line + [';']) ==> IsComment(line)
  {
    var longer := line + [';'];
    if line != [] && IsSpace(line[0]) {
      assert longer[1..] == line[1..] + [';'];
      SemicolonKeepsLine(line[1..]);
    } else {
      assert Strip(longer) == longer;
      if "--" <= longer {
        assert longer[0] == '-' && longer[1] == '-' && longer[|line|] == ';';
        assert line[0] == '-' && line[1] == '-';
        assert |StripRight(line)| >= 2;
      }
    }
  }

  function EndLast(lines: seq<string>): seq<string>
    requires lines != []
  {
    if |lines| == 1 then [lines[0] + [';']] else [lines[0]] + EndLast(lines[1..])
  }

  lemma {:induction false} SplitWithSemicolon(a: string)
    ensures Split(a + [';'], '\n') == EndLast(Split(a, '\n'))
    decreases |a|
  {
    var i := Find(a, '\n');
    if i < |a| {
      FindAt(a + [';'], '\n', i);
      assert (a + [';'])[i + 1..] == a[i + 1..] + [';'];
      assert (a + [';'])[..i] == a[..i];
      SplitWithSemicolon(a[i + 1..]);
    } else {
      assert Find(a + [';'], '\n') == |a + [';']|;
    }
  }

  lemma {:induction false} EndedLinesKept(lines: seq<string>)
    requires lines != [] && forall line :: line in lines ==> !IsComment(line)
    ensures Keep(EndLast(lines)) == EndLast(lines)
  {
    if |lines| == 1 {
      SemicolonKeepsLine(lines[0]);
      WhereAll(EndLast(lines), Kept);
    } else {
      EndedLinesKept(lines[1..]);
    }
  }

  lemma JoinCons(x: string, parts: seq<string>, sep: char)
    requires parts != []
    ensures Join([x] + parts, sep) == x + [sep] + Join(parts, sep)
  {
    assert ([x] + parts)[1..] == parts;
  }

  lemma {:induction false} JoinSplit(a: string, sep: char)
    ensures Join(Split(a, sep), sep) == a
    decreases |a|
  {
    var i := Find(a, sep);
    if i < |a| {
      JoinSplit(a[i + 1..], sep);
      JoinCons(a[..i], Split(a[i + 1..], sep), sep);
      assert a == a[..i] + [sep] + a[i + 1..];
    }
  }

  lemma {:induction false} JoinAppend(a: seq<string>, b: seq<string>, sep: char)
    requires a != [] && b != []
    ensures Join(a + b, sep) == Join(a, sep) + [sep] + Join(b, sep)
  {
    if |a| > 1 {
      JoinAppend(a[1..], b, sep);
      assert a + b == [a[0]] + (a[1..] + b);
      JoinCons(a[0], a[1..] + b, sep);
    } else {
      assert a + b == [a[0]] + b;
      JoinCons(a[0], b, sep);
    }
  }

  // ----- statements survive -----

  /** The kept lines of one statement are its own, with the semicolon on the last. */
  lemma StatementLines(text: string, rest: string)
    requires Plain(text)
    ensures Keep(SplitLines(text + [';', '\n'] + rest)) == Split(text + [';'], '\n') + Keep(SplitLines(rest))
  {
    var a := text + [';'];
    assert text + [';', '\n'] + rest == a + ['\n'] + rest;
    LinesThenRest(a, rest);
    WhereAppend(Split(a, '\n'), SplitLines(rest), Kept);
    SplitWithSemicolon(text);
    EndedLinesKept(Split(text, '\n'));
  }

  lemma CommentLine(text: string, rest: string)
    requires IsComment(text) && forall c :: c in text ==> !IsBreak(c)
    ensures Keep(SplitLines(text + ['\n'] + rest)) == Keep(SplitLines(rest))
  {
    LinesThenRest(text, rest);
    assert '\n' !in text;
  }

  /** What is left of the text after comments are dropped and lines are joined again. */
  function Bare(texts: seq<string>): string
  {
    if texts == [] then []
    else if |texts| == 1 then texts[0] + [';']
    else texts[0] + [';', '\n'] + Bare(texts[1..])
  }

  lemma BareCons(text: string, texts: seq<string>)
    ensures Bare([text] + texts) == if texts == [] then text + [';'] else text + [';'] + (['\n'] + Bare(texts))
  {
    assert ([text] + texts)[1..] == texts;
  }

  lemma JoinOwn(own: seq<string>, others: seq<string>, text: string, texts: seq<string>)
    requires own != [] && Join(own, '\n') == text + [';']
    requires Join(others, '\n') == Bare(texts) && (others == [] <==> texts == [])
    ensures Join(own + others, '\n') == Bare([text] + texts)
  {
    BareCons(text, texts);
    if others == [] { assert own + others == own; } else { JoinAppend(own, others, '\n'); }
  }

  lemma KeptStatement(text: string, rest: string, texts: seq<string>)
    requires Plain(text)
    requires Join(Keep(SplitLines(rest)), '\n') == Bare(texts) && (Keep(SplitLines(rest)) == [] <==> texts == [])
    ensures Join(Keep(SplitLines(text + [';', '\n'] + rest)), '\n') == Bare([text] + texts)
    ensures Keep(SplitLines(text + [';', '\n'] + rest)) != []
  {
    StatementLines(text, rest);
    JoinSplit(text + [';'], '\n');
    hide SplitLines, Split, Join, Bare, Keep, Plain;
    JoinOwn(Split(text + [';'], '\n'), Keep(SplitLines(rest)), text, texts);
  }

  lemma {:induction false} KeptText(items: seq<Item>)
    requires Printable(items)
    ensures Join(Keep(SplitLines(Print(items))), '\n') == Bare(Texts(items))
    ensures Keep(SplitLines(Print(items))) == [] <==> Texts(items) == []
  {
    if items != [] {
      assert CanPrint(items[0]);
      hide SplitLines, Split, Join, Bare, Keep, Plain, IsComment;
      KeptText(items[1..]);
      match items[0]
      case Comment(text) =>
        assert Texts(items) == Texts(items[1..]);
        assert Print(items) == text + ['\n'] + Print(items[1..]);
        CommentLine(text, Print(items[1..]));
      case Statement(text) =>
        assert Texts(items) == [text] + Texts(items[1..]);
        assert Print(items) == text + [';', '\n'] + Print(items[1..]);
        hide Texts, Print;
        KeptStatement(text, Print(items[1..]), Texts(items[1..]));
    }
  }

  /** Splitting the bare text gives the statements back, a leading newline stripped off each. */
  lemma {:induction false} BareParses(texts: seq<string>, lead: string)
    requires lead == [] || lead == ['\n']
    requires forall t :: t in texts ==> Trimmed(t) && ';' !in t
    ensures NonBlank(Split(if texts == [] then [] else lead + Bare(texts), ';')) == texts
  {
    if texts != [] {
      var t, rest := texts[0], texts[1..];
      var tail := if rest == [] then [] else ['\n'] + Bare(rest);
      assert texts == [t] + rest;
      BareCons(t, rest);
      assert lead + Bare(texts) == (lead + t) + [';'] + tail;
      SplitOff(lead + t, tail, ';');
      BareParses(rest, ['\n']);
      LeadStripped(t, lead);
      NonBlankCons(lead + t, Split(tail, ';'));
    }
  }

  lemma LeadStripped(t: string, lead: string)
    requires Trimmed(t) && (lead == [] || lead == ['\n'])
    ensures Strip(lead + t) == t
  {
    StripTrims(t);
    if lead == [] { assert lead + t == t; } else { assert (lead + t)[1..] == t; }
  }

  lemma NonBlankCons(chunk: string, chunks: seq<string>)
    ensures NonBlank([chunk] + chunks) == (if Strip(chunk) != [] then [Strip(chunk)] else []) + NonBlank(chunks)
  {
    assert ([chunk] + chunks)[1..] == chunks;
  }

  lemma {:induction false} TextsArePlain(items: seq<Item>)
    requires Printable(items)
    ensures forall t :: t in Texts(items) ==> Trimmed(t) && ';' !in t
  {
    if items != [] {
      assert CanPrint(items[0]);
      TextsArePlain(items[1..]);
    }
  }

  /** Round trip: printed with semicolons, newlines and full-line comments in between, statements parse back. */
  lemma ParsePrint(items: seq<Item>)
    requires Printable(items)
    ensures Parse(Print(items)) == Texts(items)
  {
    KeptText(items);
    TextsArePlain(items);
    BareParses(Texts(items), []);
    assert [] + Bare(Texts(items)) == Bare(Texts(items));
  }

  // ----- nothing else survives -----

  lemma {:induction false} LinesHaveNoBreaks(s: string)
    ensures forall line, c :: line in SplitLines(s) && c in line ==> !IsBreak(c)
    decreases |s|
  {
    var i := LineEnd(s);
    if i < |s| {
      LinesHaveNoBreaks(s[i + (if s[i] == '\r' && i + 1 < |s| && s[i + 1] == '\n' then 2 else 1)..]);
    }
  }

  lemma {:induction false} JoinChars(parts: seq<string>, sep: char, c: char)
    requires c in Join(parts, sep)
    ensures c == sep || exists part :: part in parts && c in part
  {
    if |parts| > 1 && c !in parts[0] && c != sep { JoinChars(parts[1..], sep, c); }
  }

  lemma {:induction false} SplitChars(s: string, sep: char, part: string)
    requires part in Split(s, sep)
    ensures |part| <= |s| && forall c :: c in part ==> c in s
    decreases |s|
  {
    var i := Find(s, sep);
    if i < |s| && part != s[..i] { SplitChars(s[i + 1..], sep, part); }
  }

  lemma {:induction false} NonBlankFrom(chunks: seq<string>, piece: string) returns (chunk: string)
    requires piece in NonBlank(chunks)
    ensures chunk in chunks && piece == Strip(chunk)
  {
    if Strip(chunks[0]) != [] && piece == Strip(chunks[0]) {
      chunk := chunks[0];
    } else {
      chunk := NonBlankFrom(chunks[1..], piece);
    }
  }

  lemma {:induction false} StripLeftShorter(s: string)
    ensures |StripLeft(s)| <= |s|
  {
    if s != [] && IsSpace(s[0]) { StripLeftShorter(s[1..]); }
  }

  /** A parsed statement is no longer than the text left after dropping comments, and has no other characters. */
  lemma PieceFits(bare: string, piece: string)
    requires piece in NonBlank(Split(bare, ';'))
    ensures |piece| <= |bare| && forall c :: c in piece ==> c in bare
  {
    var chunk := NonBlankFrom(Split(bare, ';'), piece);
    SplitChars(bare, ';', chunk);
    StripTrims(chunk);
    StripLeftShorter(chunk);
  }

  lemma {:induction false} SomeKept(lines: seq<string>)
    ensures Keep(lines) == [] ==> Join(Keep(lines), '\n') == []
    ensures |Join(Keep(lines), '\n')| <= |Join(lines, '\n')|
    ensures (exists line :: line in lines && IsComment(line)) ==>
              |Join(Keep(lines), '\n')| + 2 <= |Join(lines, '\n')|
  {
    if lines != [] {
      SomeKept(lines[1..]);
      assert lines == [lines[0]] + lines[1..];
      if lines[1..] != [] { JoinCons(lines[0], lines[1..], '\n'); }
      if IsComment(lines[0]) {
        CommentIsLong(lines[0]);
        assert Keep(lines) == Keep(lines[1..]);
      } else {
        assert Keep(lines) == [lines[0]] + Keep(lines[1..]);
        if Keep(lines[1..]) != [] { JoinCons(lines[0], Keep(lines[1..]), '\n'); }
      }
    }
  }

  lemma CommentIsLong(line: string)
    requires IsComment(line)
    ensures |line| >= 2
  {
    StripLeftShorter(line);
  }

  lemma {:induction false} CommentKeepsSemicolon(line: string)
    requires IsComment(line)
    ensures IsComment(line + [';'])
  {
    var longer := line + [';'];
    if IsSpace(line[0]) {
      assert longer[1..] == line[1..] + [';'];
      CommentKeepsSemicolon(line[1..]);
    } else {
      assert Strip(longer) == longer;
    }
  }

  lemma {:induction false} EndLastComment(lines: seq<string>, line: string)
    requires line in lines && IsComment(line)
    ensures exists l :: l in EndLast(lines) && IsComment(l)
  {
    if |lines| == 1 {
      CommentKeepsSemicolon(line);
      assert line + [';'] in EndLast(lines);
    } else if line != lines[0] {
      EndLastComment(lines[1..], line);
      var l :| l in EndLast(lines[1..]) && IsComment(l);
      assert l in EndLast(lines);
    } else {
      assert lines[0] in EndLast(lines);
    }
  }

  /** What is left of one printed statement: its lines with the comments dropped. */
  lemma LeftOfOne(text: string)
    requires forall c :: c in text && IsBreak(c) ==> c == '\n'
    ensures SplitLines(text + [';', '\n']) == EndLast(Split(text, '\n'))
    ensures Join(EndLast(Split(text, '\n')), '\n') == text + [';']
  {
    assert text + [';', '\n'] == (text + [';']) + ['\n'] + [];
    LinesThenRest(text + [';'], []);
    SplitWithSemicolon(text);
    JoinSplit(text + [';'], '\n');
  }

  /** Exactly the plain statements come back when printed alone. */
  lemma {:induction false} ParsesExactly(text: string)
    ensures Parse(Print([Statement(text)])) == [text] <==> Plain(text)
  {
    var sql := text + [';', '\n'];
    assert Print([Statement(text)]) == sql + Print([Statement(text)][1..]) == sql;
    if Plain(text) {
      ParsePrint([Statement(text)]);
      assert Texts([Statement(text)]) == [text];
    }
    if Parse(sql) == [text] {
      var lines := SplitLines(sql);
      var bare := Join(Keep(lines), '\n');
      assert text in Parse(sql);
      PiecesAreClean(sql, text);
      PieceFits(bare, text);
      hide Parse, Plain, IsComment, SplitLines, Split, Join, Keep, NonBlank;
      forall c | c in text && IsBreak(c) ensures c == '\n' { OnlyNewlines(sql, c); }
      LeftOfOne(text);
      SomeKept(lines);
      forall line | line in Split(text, '\n') ensures !IsComment(line) {
        if IsComment(line) { EndLastComment(Split(text, '\n'), line); }
      }
      PlainFrom(text);
    }
  }

  lemma PlainFrom(text: string)
    requires Trimmed(text) && ';' !in text && forall c :: c in text && IsBreak(c) ==> c == '\n'
    requires forall line :: line in Split(text, '\n') ==> !IsComment(line)
    ensures Plain(text)
  {
  }

  lemma OnlyNewlines(sql: string, c: char)
    requires c in Join(Keep(SplitLines(sql)), '\n') && IsBreak(c)
    ensures c == '\n'
  {
    LinesHaveNoBreaks(sql);
    JoinChars(Keep(SplitLines(sql)), '\n', c);
    hide SplitLines, Join, IsBreak;
    forall line | line in Keep(SplitLines(sql)) ensures line in SplitLines(sql) {
      WhereIn(SplitLines(sql), Kept, line);
    }
  }

  // ----- Python's string operations, from outside -----

  lemma WhitespaceExactly(c: char)
    ensures IsSpace(c) <==>
              c as int in {9, 10, 11, 12, 13, 28, 29, 30, 31, 32, 133, 160, 5760, 8192, 8193, 8194, 8195, 8196, 8197,
                           8198, 8199, 8200, 8201, 8202, 8232, 8233, 8239, 8287, 12288}
  {
  }

  lemma BreaksExactly(c: char)
    ensures IsBreak(c) <==> c as int in {10, 11, 12, 13, 28, 29, 30, 133, 8232, 8233}
  {
  }

  lemma {:induction false} StripLeftCuts(s: string) returns (i: nat)
    ensures i <= |s| && StripLeft(s) == s[i..] && forall k :: 0 <= k < i ==> IsSpace(s[k])
  {
    if s != [] && IsSpace(s[0]) {
      var j := StripLeftCuts(s[1..]);
      i := j + 1;
    } else {
      i := 0;
    }
  }

  /** Stripping cuts off whitespace at both ends, and all of it. */
  lemma StripExactly(s: string) returns (i: nat, j: nat)
    ensures i <= j <= |s| && Strip(s) == s[i..j]
    ensures forall k :: (0 <= k < i || j <= k < |s|) ==> IsSpace(s[k])
    ensures i < j ==> !IsSpace(s[i]) && !IsSpace(s[j - 1])
  {
    i := StripLeftCuts(s);
    j := i + |StripRight(s[i..])|;
    assert StripRight(s[i..]) <= s[i..];
    assert s[i..j] == s[i..][..j - i];
    forall k | j <= k < |s| ensures IsSpace(s[k]) { assert s[k] == s[i..][k - i]; }
  }

  /** A comment is a line whose first characters that are not whitespace are two dashes. */
  lemma {:induction false} CommentExactly(line: string)
    ensures IsComment(line) <==>
              exists i :: 0 <= i <= |line| && "--" <= line[i..] && forall k :: 0 <= k < i ==> IsSpace(line[k])
  {
    var i, j := StripExactly(line);
    var t := Strip(line);
    if IsComment(line) {
      assert t[0] == line[i] && t[1] == line[i + 1];
      assert "--" <= line[i..];
    }
    if n :| 0 <= n <= |line| && "--" <= line[n..] && forall k :: 0 <= k < n ==> IsSpace(line[k]) {
      assert line[n..][0] == line[n] == '-' && line[n..][1] == line[n + 1] == '-';
      assert i == n && j >= n + 2;
      assert t[0] == '-' && t[1] == '-';
    }
  }

  /** A line ends at the first break; a carriage return and the newline after it are one. */
  lemma LinesExactly(line: string, b: char, rest: string)
    requires (forall c :: c in line ==> !IsBreak(c)) && IsBreak(b)
    ensures SplitLines(line) == if line == [] then [] else [line]
    ensures SplitLines(line + [b] + rest) ==
              [line] + SplitLines(if b == '\r' && rest != [] && rest[0] == '\n' then rest[1..] else rest)
  {
    var s := line + [b] + rest;
    LineEndAt(s, |line|);
    hide LineEnd, IsBreak;
    assert s[..|line|] == line && s[|line|] == b && s[|line| + 1..] == rest;
    if rest != [] {
      assert s[|line| + 1] == rest[0] && s[|line| + 2..] == rest[1..];
    }
  }

  // ----- a last statement without a semicolon -----

  /** Lines of a text that does not end in a break, all its breaks newlines. */
  lemma {:induction false} LastLines(a: string)
    requires (forall c :: c in a && IsBreak(c) ==> c == '\n') && a != [] && a[|a| - 1] != '\n'
    ensures SplitLines(a) == Split(a, '\n')
    decreases |a|
  {
    var i := Find(a, '\n');
    if i == |a| {
      NoBreakLine(a);
    } else {
      var line, rest := a[..i], a[i + 1..];
      LastLines(rest);
      LineOff(line, rest);
      hide SplitLines, Split, Find;
      assert a == line + ['\n'] + rest;
      SplitOff(line, rest, '\n');
    }
  }

  lemma NoBreakLine(a: string)
    requires (forall c :: c in a && IsBreak(c) ==> c == '\n') && '\n' !in a && a != []
    ensures SplitLines(a) == [a] == Split(a, '\n')
  {
    assert Find(a, '\n') == |a|;
    assert LineEnd(a) == |a|;
    hide LineEnd, Find, IsBreak;
  }

  /** Statements, each with its semicolon and newline, then the last text as it is. */
  function BareThen(texts: seq<string>, last: string): string
  {
    if texts == [] then last else texts[0] + [';', '\n'] + BareThen(texts[1..], last)
  }

  lemma JoinThen(own: seq<string>, others: seq<string>, text: string, texts: seq<string>, last: string)
    requires own != [] && others != [] && Join(own, '\n') == text + [';'] && Join(others, '\n') == BareThen(texts, last)
    ensures Join(own + others, '\n') == BareThen([text] + texts, last)
  {
    JoinAppend(own, others, '\n');
    assert ([text] + texts)[1..] == texts;
    hide Join;
    assert text + [';', '\n'] + BareThen(texts, last) == text + [';'] + ['\n'] + BareThen(texts, last);
  }

  lemma PrintThen(items: seq<Item>, last: string)
    requires items != []
    ensures var text, rest := items[0].text, Print(items[1..]) + last;
            if items[0].Comment? then Print(items) + last == text + ['\n'] + rest && Texts(items) == Texts(items[1..])
            else Print(items) + last == text + [';', '\n'] + rest && Texts(items) == [text] + Texts(items[1..])
  {
    var text, rest := items[0].text, Print(items[1..]);
    var head := if items[0].Comment? then text + ['\n'] else text + [';', '\n'];
    assert Print(items) == head + rest;
    assert Texts(items) == (if items[0].Comment? then [] else [text]) + Texts(items[1..]);
    hide Print, Texts;
    Regroup(head, rest, last);
  }

  lemma Regroup(a: string, b: string, c: string)
    ensures (a + b) + c == a + (b + c)
  {
  }

  lemma {:induction false} KeptThen(items: seq<Item>, last: string)
    requires Printable(items) && Plain(last)
    ensures Join(Keep(SplitLines(Print(items) + last)), '\n') == BareThen(Texts(items), last)
    ensures Keep(SplitLines(Print(items) + last)) != []
  {
    if items == [] {
      assert Print(items) + last == last;
      LastLines(last);
      WhereAll(Split(last, '\n'), Kept);
      JoinSplit(last, '\n');
    } else {
      var rest := Print(items[1..]) + last;
      assert CanPrint(items[0]);
      PrintThen(items, last);
      hide SplitLines, Split, Join, Keep, IsComment, Print, Texts, BareThen;
      KeptThen(items[1..], last);
      match items[0]
      case Comment(text) =>
        CommentLine(text, rest);
      case Statement(text) =>
        StatementLines(text, rest);
        JoinSplit(text + [';'], '\n');
        hide Plain;
        JoinThen(Split(text + [';'], '\n'), Keep(SplitLines(rest)), text, Texts(items[1..]), last);
    }
  }

  lemma BareThenCons(texts: seq<string>, last: string, lead: string)
    requires texts != []
    ensures lead + BareThen(texts, last) == (lead + texts[0]) + [';'] + (['\n'] + BareThen(texts[1..], last))
    ensures texts + [last] == [texts[0]] + (texts[1..] + [last])
  {
    var rest := BareThen(texts[1..], last);
    assert [';', '\n'] + rest == [';'] + (['\n'] + rest);
  }

  lemma {:induction false} BareThenParses(texts: seq<string>, last: string, lead: string)
    requires (lead == [] || lead == ['\n']) && Trimmed(last) && ';' !in last
    requires forall t :: t in texts ==> Trimmed(t) && ';' !in t
    ensures NonBlank(Split(lead + BareThen(texts, last), ';')) == texts + [last]
  {
    if texts == [] {
      LeadStripped(last, lead);
      assert Find(lead + last, ';') == |lead + last|;
      assert Split(lead + last, ';') == [lead + last];
      NonBlankCons(lead + last, []);
    } else {
      var t, rest := texts[0], texts[1..];
      var tail := ['\n'] + BareThen(rest, last);
      BareThenCons(texts, last, lead);
      hide Split, NonBlank, BareThen;
      BareThenParses(rest, last, ['\n']);
      assert t in texts && ';' !in lead + t;
      SplitOff(lead + t, tail, ';');
      LeadStripped(t, lead);
      NonBlankCons(lead + t, Split(tail, ';'));
    }
  }

  /** The last statement needs no semicolon. */
  lemma LastStatementParses(items: seq<Item>, last: string)
    requires Printable(items) && Plain(last)
    ensures Parse(Print(items) + last) == Texts(items) + [last]
  {
    KeptThen(items, last);
    TextsArePlain(items);
    BareThenParses(Texts(items), last, []);
    assert [] + BareThen(Texts(items), last) == BareThen(Texts(items), last);
  }
}
