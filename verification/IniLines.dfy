/** One line of an INI file: what the editor's patterns find in it, and how it forces a value to 0. */
module IniLines {
  import opened Texts
  import opened Options

  /** The ASCII white space of the patterns. */
  predicate Space(c: char) {
    c == ' ' || '\t' <= c <= '\r' || '\U{1C}' <= c <= '\U{1F}'
  }

  predicate Marker(c: char) {
    c == ';' || c == '#'
  }

  predicate Starts(t: Text, p: char -> bool) {
    t.Char? && p(t.c)
  }

  datatype Split = Split(front: Text, back: Text)

  /** Leading white space and the rest. */
  function SplitSpace(t: Text): Split {
    if !Starts(t, Space) then Split(End, t)
    else
      var s := SplitSpace(t.rest);
      Split(Char(t.c, s.front), s.back)
  }

  function Fold(c: char): char {
    if 'A' <= c <= 'Z' then (c as int + 32) as char else c
  }

  /** `t` starts with `word` (given in lower case), ignoring case. */
  function SplitWord(t: Text, word: Text): Option<Split> {
    if word.End? then Some(Split(End, t))
    else if t.End? || Fold(t.c) != word.c then None
    else
      var s := SplitWord(t.rest, word.rest);
      if s.None? then None else Some(Split(Char(t.c, s.value.front), s.value.back))
  }

  const ENABLE := Char('e', Char('n', Char('a', Char('b', Char('l', Char('e', End))))))

  /** The part of a line that says `Enable =`, white space included, and the rest. */
  function SplitKey(t: Text): Option<Split> {
    var lead := SplitSpace(t);
    var word := SplitWord(lead.back, ENABLE);
    if word.None? then None
    else
      var mid := SplitSpace(word.value.back);
      if !Starts(mid.back, c => c == '=') then None
      else
        var gap := SplitSpace(mid.back.rest);
        Some(Split(Append(lead.front, Append(word.value.front, Append(mid.front, Char('=', gap.front)))), gap.back))
  }

  function UntilStop(t: Text): Text {
    if t.End? || Marker(t.c) || Space(t.c) then End else Char(t.c, UntilStop(t.rest))
  }

  /** The value a line gives to `Enable`, if any. */
  function EnableValue(t: Text): Option<Text> {
    var k := SplitKey(t);
    if k.None? || UntilStop(k.value.back).End? then None else Some(UntilStop(k.value.back))
  }

  predicate CommentHere(t: Text) {
    Starts(t, Space) && Starts(SplitSpace(t).back, Marker)
  }

  /** The trailing comment with the white space before it. */
  function Comment(t: Text): Text {
    if t.End? || CommentHere(t) then t else Comment(t.rest)
  }

  const ZERO := Char('0', End)

  /** The line with its value forced to 0 and its comment kept. */
  function Rewrite(t: Text): Text
    requires SplitKey(t).Some?
  {
    Append(SplitKey(t).value.front, Char('0', Comment(t)))
  }

  // --------------------------------------------------------- what rewriting keeps

  predicate Unmarked(t: Text) {
    t.End? || (!Marker(t.c) && Unmarked(t.rest))
  }

  lemma {:induction false} SplitSpaceAgain(t: Text, back: Text)
    requires !Starts(back, Space)
    ensures SplitSpace(Append(SplitSpace(t).front, back)) == Split(SplitSpace(t).front, back)
    ensures !Starts(SplitSpace(t).back, Space) && Unmarked(SplitSpace(t).front)
  {
    if Starts(t, Space) { SplitSpaceAgain(t.rest, back); }
  }

  predicate NoMarkerIn(word: Text) {
    word.End? || (word.c != ';' && word.c != '#' && !Space(word.c) && NoMarkerIn(word.rest))
  }

  lemma {:induction false} SplitWordAgain(t: Text, word: Text, back: Text)
    requires SplitWord(t, word).Some? && NoMarkerIn(word)
    ensures SplitWord(Append(SplitWord(t, word).value.front, back), word)
            == Some(Split(SplitWord(t, word).value.front, back))
    ensures Unmarked(SplitWord(t, word).value.front)
    ensures word.Char? ==> SplitWord(t, word).value.front.Char? && Fold(SplitWord(t, word).value.front.c) == word.c
  {
    if word.Char? { SplitWordAgain(t.rest, word.rest, back); }
  }

  lemma {:induction false} AppendUnmarked(a: Text, b: Text)
    requires Unmarked(a) && Unmarked(b)
    ensures Unmarked(Append(a, b))
  {
    if a.Char? { AppendUnmarked(a.rest, b); }
  }

  /** The part before the value is found again whatever nonblank text follows it, and holds no comment. */
  lemma SplitKeyAgain(t: Text, back: Text)
    requires SplitKey(t).Some? && !Starts(back, Space)
    ensures SplitKey(Append(SplitKey(t).value.front, back)) == Some(Split(SplitKey(t).value.front, back))
    ensures Unmarked(SplitKey(t).value.front)
  {
    var lead := SplitSpace(t);
    var word := SplitWord(lead.back, ENABLE).value;
    var mid := SplitSpace(word.back);
    var gap := SplitSpace(mid.back.rest);
    var fourth := Append(Char('=', gap.front), back);
    var third := Append(mid.front, fourth);
    var second := Append(word.front, third);
    AppendAssoc(mid.front, Char('=', gap.front), back);
    AppendAssoc(word.front, Append(mid.front, Char('=', gap.front)), back);
    AppendAssoc(lead.front, Append(word.front, Append(mid.front, Char('=', gap.front))), back);
    SplitSpaceAgain(mid.back.rest, back);
    SplitSpaceAgain(word.back, fourth);
    SplitWordAgain(lead.back, ENABLE, third);
    SplitSpaceAgain(t, second);
    AppendUnmarked(mid.front, Char('=', gap.front));
    AppendUnmarked(word.front, Append(mid.front, Char('=', gap.front)));
    AppendUnmarked(lead.front, Append(word.front, Append(mid.front, Char('=', gap.front))));
  }

  lemma {:induction false} CommentOfComment(t: Text)
    ensures Comment(Comment(t)) == Comment(t)
  {
    if t.Char? && !CommentHere(t) { CommentOfComment(t.rest); }
  }

  lemma {:induction false} NoMarkerAhead(a: Text, b: Text)
    requires Unmarked(a)
    ensures !Starts(SplitSpace(Append(a, Char('0', b))).back, Marker)
  {
    if Starts(a, Space) { NoMarkerAhead(a.rest, b); }
  }

  lemma {:induction false} CommentAfter(a: Text, b: Text)
    requires Unmarked(a)
    ensures Comment(Append(a, Char('0', b))) == Comment(b)
  {
    NoMarkerAhead(a, b);
    if a.Char? { CommentAfter(a.rest, b); }
  }

  lemma {:induction false} CommentStarts(t: Text)
    ensures Comment(t).End? || CommentHere(Comment(t))
  {
    if t.Char? && !CommentHere(t) { CommentStarts(t.rest); }
  }

  /** A rewritten line gives the value 0, keeps its comment, and stays as it is when rewritten again. */
  lemma RewriteIsStable(t: Text)
    requires SplitKey(t).Some?
    ensures SplitKey(Rewrite(t)).Some? && SplitKey(Rewrite(t)).value.front == SplitKey(t).value.front
    ensures EnableValue(Rewrite(t)) == Some(ZERO)
    ensures Comment(Rewrite(t)) == Comment(t) && Rewrite(Rewrite(t)) == Rewrite(t)
  {
    var back := Char('0', Comment(t));
    SplitKeyAgain(t, back);
    CommentAfter(SplitKey(t).value.front, Comment(t));
    CommentOfComment(t);
    CommentStarts(t);
    assert UntilStop(back) == ZERO;
  }

  // ------------------------------------------------------------------- headers

  predicate Blank(t: Text) {
    t.End? || (Space(t.c) && Blank(t.rest))
  }

  function TrimEnd(t: Text): Text {
    if Blank(t) then End else Char(t.c, TrimEnd(t.rest))
  }

  /** What stands before the first closing bracket, and what after it. */
  function SplitBracket(t: Text): Option<Split> {
    if t.End? then None
    else if t.c == ']' then Some(Split(End, t.rest))
    else
      var s := SplitBracket(t.rest);
      if s.None? then None else Some(Split(Char(t.c, s.value.front), s.value.back))
  }

  /** The name in a header line, trimmed and in lower case. */
  function HeaderName(t: Text): Option<Text> {
    var lead := SplitSpace(t).back;
    if !Starts(lead, c => c == '[') then None
    else
      var s := SplitBracket(lead.rest);
      if s.None? || s.value.front.End? || !Blank(s.value.back) then None
      else Some(FoldAll(TrimEnd(SplitSpace(s.value.front).back)))
  }

  lemma KeyIsNoHeader(t: Text)
    requires SplitKey(t).Some?
    ensures HeaderName(t).None?
  {
  }

  // --------------------------------------------- what the patterns match, piece by piece

  /** White space throughout. */
  predicate AllSpace(t: Text) {
    t.End? || (Space(t.c) && AllSpace(t.rest))
  }

  function FoldAll(t: Text): Text {
    if t.End? then End else Char(Fold(t.c), FoldAll(t.rest))
  }

  lemma {:induction false} SpacePieces(t: Text)
    ensures t == Append(SplitSpace(t).front, SplitSpace(t).back)
    ensures AllSpace(SplitSpace(t).front) && !Starts(SplitSpace(t).back, Space)
  {
    if Starts(t, Space) { SpacePieces(t.rest); }
  }

  lemma {:induction false} SpaceFound(lead: Text, back: Text)
    requires AllSpace(lead) && !Starts(back, Space)
    ensures SplitSpace(Append(lead, back)) == Split(lead, back)
  {
    if lead.Char? { SpaceFound(lead.rest, back); }
  }

  lemma {:induction false} WordPieces(t: Text, word: Text)
    requires SplitWord(t, word).Some?
    ensures var s := SplitWord(t, word).value; t == Append(s.front, s.back) && FoldAll(s.front) == word
  {
    if word.Char? { WordPieces(t.rest, word.rest); }
  }

  lemma {:induction false} WordFound(said: Text, back: Text)
    ensures SplitWord(Append(said, back), FoldAll(said)) == Some(Split(said, back))
  {
    if said.Char? { WordFound(said.rest, back); }
  }

  /** White space, the word, white space, the sign, white space, and what follows. */
  function KeyText(lead: Text, word: Text, mid: Text, gap: Text, back: Text): Text {
    Append(lead, Append(word, Append(mid, Char('=', Append(gap, back)))))
  }

  predicate KeyPieces(t: Text, lead: Text, word: Text, mid: Text, gap: Text, back: Text) {
    && t == KeyText(lead, word, mid, gap, back) && AllSpace(lead) && AllSpace(mid) && AllSpace(gap)
    && FoldAll(word) == Char('e', Char('n', Char('a', Char('b', Char('l', Char('e', End))))))
    && !Starts(back, Space)
  }

  lemma KeyIsSplit(t: Text) returns (lead: Text, word: Text, mid: Text, gap: Text, back: Text)
    requires SplitKey(t).Some?
    ensures KeyPieces(t, lead, word, mid, gap, back)
    ensures SplitKey(t).value == Split(KeyText(lead, word, mid, gap, End), back)
  {
    var l := SplitSpace(t);
    var w := SplitWord(l.back, ENABLE).value;
    var m := SplitSpace(w.back);
    var g := SplitSpace(m.back.rest);
    SpacePieces(t);
    WordPieces(l.back, ENABLE);
    SpacePieces(w.back);
    SpacePieces(m.back.rest);
    lead, word, mid, gap, back := l.front, w.front, m.front, g.front, g.back;
    AppendEnd(gap);
  }

  lemma {:induction false} AppendEnd(a: Text)
    ensures Append(a, End) == a
  {
    if a.Char? { AppendEnd(a.rest); }
  }

  lemma KeyIsFound(t: Text, lead: Text, word: Text, mid: Text, gap: Text, back: Text)
    requires KeyPieces(t, lead, word, mid, gap, back)
    ensures SplitKey(t) == Some(Split(KeyText(lead, word, mid, gap, End), back))
  {
    var third := Append(mid, Char('=', Append(gap, back)));
    AppendEnd(gap);
    WordFound(word, third);
    WordStartsDark(word, third);
    SpaceFound(lead, Append(word, third));
    SpaceFound(mid, Char('=', Append(gap, back)));
    SpaceFound(gap, back);
  }

  lemma WordStartsDark(word: Text, rest: Text)
    requires FoldAll(word) == ENABLE
    ensures !Starts(Append(word, rest), Space)
  {
  }

  /** A line sets `Enable` exactly when it falls into these pieces, and what precedes its value is then the first
      five. */
  lemma KeyExactly(t: Text)
    ensures SplitKey(t).Some? <==> exists lead, word, mid, gap, back :: KeyPieces(t, lead, word, mid, gap, back)
  {
    if SplitKey(t).Some? {
      var lead, word, mid, gap, back := KeyIsSplit(t);
    }
    if lead, word, mid, gap, back :| KeyPieces(t, lead, word, mid, gap, back) {
      KeyIsFound(t, lead, word, mid, gap, back);
    }
  }

  /** Neither white space nor the start of a comment. */
  predicate AllValue(t: Text) {
    t.End? || (!Space(t.c) && t.c != ';' && t.c != '#' && AllValue(t.rest))
  }

  predicate StopsValue(t: Text) {
    t.End? || Space(t.c) || t.c == ';' || t.c == '#'
  }

  lemma {:induction false} ValuePieces(back: Text) returns (rest: Text)
    ensures back == Append(UntilStop(back), rest) && AllValue(UntilStop(back)) && StopsValue(rest)
  {
    if back.End? || Marker(back.c) || Space(back.c) { rest := back; } else { rest := ValuePieces(back.rest); }
  }

  lemma {:induction false} ValueFound(value: Text, rest: Text)
    requires AllValue(value) && StopsValue(rest)
    ensures UntilStop(Append(value, rest)) == value
  {
    if value.Char? { ValueFound(value.rest, rest); }
  }

  /** The value of a line is the longest text after the sign that holds neither white space nor a comment marker. */
  lemma ValueExactly(t: Text, value: Text, rest: Text)
    requires SplitKey(t).Some? && SplitKey(t).value.back == Append(value, rest) && AllValue(value) && StopsValue(rest)
    ensures EnableValue(t) == if value.End? then None else Some(value)
  {
    ValueFound(value, rest);
  }

  /** White space, at least one, and then a comment marker. */
  predicate CommentForm(t: Text) {
    Starts(t, Space) && ((t.rest.Char? && (t.rest.c == ';' || t.rest.c == '#')) || CommentForm(t.rest))
  }

  lemma {:induction false} CommentHereExactly(t: Text)
    ensures CommentHere(t) <==> CommentForm(t)
  {
    if Starts(t, Space) {
      CommentHereExactly(t.rest);
      assert SplitSpace(t).back == SplitSpace(t.rest).back;
      if !Starts(t.rest, Space) { assert SplitSpace(t.rest).back == t.rest; }
    }
  }

  /** No comment starts within `body`, with `rest` behind it. */
  predicate NoneWithin(body: Text, rest: Text) {
    body.End? || (!CommentForm(Append(body, rest)) && NoneWithin(body.rest, rest))
  }

  /** The comment that is kept is the rest of the line from the first place where white space leads to a marker. */
  lemma {:induction false} CommentExactly(t: Text) returns (body: Text)
    ensures t == Append(body, Comment(t)) && NoneWithin(body, Comment(t))
    ensures Comment(t).Char? ==> CommentForm(Comment(t))
  {
    CommentHereExactly(t);
    if t.End? || CommentHere(t) {
      body := End;
    } else {
      body := CommentExactly(t.rest);
      body := Char(t.c, body);
    }
  }

  /** A rewritten line is the pieces before the value, a zero, and that comment. */
  lemma RewriteExactly(t: Text, lead: Text, word: Text, mid: Text, gap: Text, back: Text)
    requires KeyPieces(t, lead, word, mid, gap, back)
    ensures SplitKey(t).Some? && Rewrite(t) == KeyText(lead, word, mid, gap, Char('0', Comment(t)))
  {
    KeyIsFound(t, lead, word, mid, gap, back);
    var end := Char('0', Comment(t));
    AppendAssoc(lead, Append(word, Append(mid, Char('=', Append(gap, End)))), end);
    AppendAssoc(word, Append(mid, Char('=', Append(gap, End))), end);
    AppendAssoc(mid, Char('=', Append(gap, End)), end);
    AppendAssoc(gap, End, end);
  }

  // -------------------------------------------------------------- header lines

  predicate NoBracket(t: Text) {
    t.End? || (t.c != ']' && NoBracket(t.rest))
  }

  /** No white space at either end. */
  predicate Trimmed(t: Text) {
    t.Char? ==> !Space(t.c) && DarkEnd(t)
  }

  predicate DarkEnd(t: Text)
    requires t.Char?
  {
    if t.rest.End? then !Space(t.c) else DarkEnd(t.rest)
  }

  /** White space, a bracket, white space around the name, the first closing bracket, white space. */
  predicate HeaderPieces(t: Text, lead: Text, before: Text, name: Text, after: Text, tail: Text) {
    && t == Append(lead, Char('[', Append(Append(before, Append(name, after)), Char(']', tail))))
    && AllSpace(lead) && AllSpace(before) && AllSpace(after) && AllSpace(tail) && Trimmed(name)
    && NoBracket(Append(before, Append(name, after))) && Append(before, Append(name, after)).Char?
  }

  lemma {:induction false} BracketPieces(t: Text)
    requires SplitBracket(t).Some?
    ensures var s := SplitBracket(t).value; t == Append(s.front, Char(']', s.back)) && NoBracket(s.front)
  {
    if t.c != ']' { BracketPieces(t.rest); }
  }

  lemma {:induction false} BracketFound(front: Text, back: Text)
    requires NoBracket(front)
    ensures SplitBracket(Append(front, Char(']', back))) == Some(Split(front, back))
  {
    if front.Char? { BracketFound(front.rest, back); }
  }

  lemma {:induction false} BlankIsSpace(t: Text)
    ensures Blank(t) <==> AllSpace(t)
  {
    if t.Char? { BlankIsSpace(t.rest); }
  }

  lemma {:induction false} TrimPieces(t: Text) returns (after: Text)
    ensures t == Append(TrimEnd(t), after) && AllSpace(after) && (TrimEnd(t).Char? ==> DarkEnd(TrimEnd(t)))
    ensures TrimEnd(t).Char? ==> t.Char? && TrimEnd(t).c == t.c
  {
    BlankIsSpace(t);
    if Blank(t) { after := t; } else { after := TrimPieces(t.rest); BlankIsSpace(t.rest); }
  }

  lemma {:induction false} TrimFound(name: Text, after: Text)
    requires AllSpace(after) && (name.Char? ==> DarkEnd(name))
    ensures TrimEnd(Append(name, after)) == name
  {
    if name.Char? {
      NotBlank(name, after);
      if name.rest.Char? {
        TrimFound(name.rest, after);
      } else {
        BlankIsSpace(after);
      }
    } else {
      BlankIsSpace(after);
    }
  }

  lemma {:induction false} NotBlank(name: Text, after: Text)
    requires name.Char? && DarkEnd(name)
    ensures !Blank(Append(name, after))
  {
    if name.rest.Char? { NotBlank(name.rest, after); }
  }

  /** A header line falls into these pieces, and its name is the trimmed one in lower case. */
  lemma HeaderIsSplit(t: Text) returns (lead: Text, before: Text, name: Text, after: Text, tail: Text)
    requires HeaderName(t).Some?
    ensures HeaderPieces(t, lead, before, name, after, tail) && HeaderName(t) == Some(FoldAll(name))
  {
    var l := SplitSpace(t);
    var s := SplitBracket(l.back.rest).value;
    var inner := SplitSpace(s.front);
    SpacePieces(t);
    BracketPieces(l.back.rest);
    SpacePieces(s.front);
    BlankIsSpace(s.back);
    after := TrimPieces(inner.back);
    lead, before, name, tail := l.front, inner.front, TrimEnd(inner.back), s.back;
  }

  lemma HeaderIsFound(t: Text, lead: Text, before: Text, name: Text, after: Text, tail: Text)
    requires HeaderPieces(t, lead, before, name, after, tail) && (name.Char? || after.End?)
    ensures HeaderName(t) == Some(FoldAll(name))
  {
    var inner := Append(before, Append(name, after));
    SpaceFound(lead, Char('[', Append(inner, Char(']', tail))));
    BracketFound(inner, tail);
    BlankIsSpace(tail);
    SpaceFound(before, Append(name, after));
    TrimFound(name, after);
  }

  /** A line as the editor sees it. */
  datatype Line =
    | Header(text: Text, name: Text)
    | Key(text: Text, value: Option<Text>, zeroed: Text)
    | Plain(text: Text)

  function Read(t: Text): Line {
    if HeaderName(t).Some? then Header(t, HeaderName(t).value)
    else if SplitKey(t).Some? then Key(t, EnableValue(t), Rewrite(t))
    else Plain(t)
  }

  function Zero(line: Line): Line
    requires line.Key?
  {
    Key(line.zeroed, Some(ZERO), line.zeroed)
  }

  /** Reading the rewritten text gives the zeroed line. */
  lemma ZeroIsRead(t: Text)
    requires Read(t).Key?
    ensures Read(Rewrite(t)) == Zero(Read(t))
  {
    RewriteIsStable(t);
    KeyIsNoHeader(Rewrite(t));
  }

  /** A title that can stand between brackets: not empty, no bracket, no white space at either end. */
  predicate Title(t: Text) {
    t.Char? && !Space(t.c) && Bare(t)
  }

  predicate Bare(t: Text) {
    t.Char? && t.c != ']' && if t.rest.End? then !Space(t.c) else Bare(t.rest)
  }

  function TitleText(title: Text): Text {
    Char('[', Append(title, Char(']', End)))
  }

  function TitleLine(title: Text): Line {
    Header(TitleText(title), FoldAll(title))
  }

  lemma {:induction false} BareBracket(t: Text)
    requires Bare(t)
    ensures SplitBracket(Append(t, Char(']', End))) == Some(Split(t, End)) && TrimEnd(t) == t
  {
    if t.rest.Char? { BareBracket(t.rest); }
  }

  lemma TitleIsRead(title: Text)
    requires Title(title)
    ensures Read(TitleText(title)) == TitleLine(title)
  {
    BareBracket(title);
  }

  const ENABLE_ZERO := Char('E', Char('n', Char('a', Char('b', Char('l', Char('e', Char('=', ZERO)))))))

  const SET_LINE := Key(ENABLE_ZERO, Some(ZERO), ENABLE_ZERO)

  lemma SetLineIsRead()
    ensures Read(ENABLE_ZERO) == SET_LINE
  {
    var t, w := ENABLE_ZERO, ENABLE;
    assert SplitWord(t.rest.rest.rest, w.rest.rest.rest).Some?;
    assert SplitWord(t, w) == Some(Split(Char('E', Char('n', Char('a', Char('b', Char('l', Char('e', End)))))),
                                         Char('=', ZERO)));
    KeyIsNoHeader(t);
    SplitKeyAgain(t, ZERO);
    CommentAfter(SplitKey(t).value.front, End);
  }
}
