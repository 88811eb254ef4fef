/** Forcing `Enable=0` into every block of a section, in place, from the last block back to the first. */
module IniFile {
  import opened Texts
  import opened IniLines

  predicate IsSection(line: Line, name: Text) {
    line.Header? && line.name == name
  }

  // ------------------------------------------------------- the edit, read forwards

  /** Where a line is: outside the section, or in a block of it that already set `Enable` or not. */
  datatype Place = Outside | Inside(seen: bool)

  function PlaceAfter(header: Line, name: Text): Place {
    if IsSection(header, name) then Inside(false) else Outside
  }

  function Missing(place: Place): seq<Line> {
    if place == Inside(false) then [SET_LINE] else []
  }

  function Next(line: Line, name: Text, place: Place): Place {
    if line.Header? then PlaceAfter(line, name) else if place.Inside? && line.Key? then Inside(true) else place
  }

  function Edited(line: Line, place: Place): Line {
    if place.Inside? && line.Key? then Zero(line) else line
  }

  /** A header that ends a block in which `Enable` was never set. */
  predicate EndsUnset(line: Line, place: Place) {
    line.Header? && place == Inside(false)
  }

  /** One pass over the lines: inside the section every `Enable` becomes 0, and a block without one gets one at its
      end. */
  function Zeroed(lines: seq<Line>, name: Text, place: Place): seq<Line> {
    if lines == [] then Missing(place)
    else
      var rest := [Edited(lines[0], place)] + Zeroed(lines[1..], name, Next(lines[0], name, place));
      if EndsUnset(lines[0], place) then [SET_LINE] + rest else rest
  }

  predicate HasSection(lines: seq<Line>, name: Text) {
    lines != [] && (IsSection(lines[0], name) || HasSection(lines[1..], name))
  }

  const BLANK_LINE := Plain(End)

  function NewSection(lines: seq<Line>, title: Text): seq<Line> {
    (if lines != [] && !Blank(lines[|lines| - 1].text) then [BLANK_LINE] else []) + [TitleLine(title), SET_LINE]
  }

  /** The lines after the section was forced off. */
  function SetZero(lines: seq<Line>, title: Text): seq<Line> {
    if HasSection(lines, FoldAll(title)) then Zeroed(lines, FoldAll(title), Outside)
    else lines + NewSection(lines, title)
  }

  // --------------------------------------------------------------- blocks

  predicate NoHeader(lines: seq<Line>) {
    forall i :: 0 <= i < |lines| ==> !lines[i].Header?
  }

  predicate NoKey(lines: seq<Line>) {
    lines == [] || (!lines[0].Key? && NoKey(lines[1..]))
  }

  function ZeroIfKey(line: Line): Line {
    if line.Key? then Zero(line) else line
  }

  function ZeroAll(body: seq<Line>): (r: seq<Line>)
    ensures |r| == |body|
  {
    if body == [] then [] else [ZeroIfKey(body[0])] + ZeroAll(body[1..])
  }

  function EditBody(body: seq<Line>): seq<Line> {
    if NoKey(body) then body + [SET_LINE] else ZeroAll(body)
  }

  /** Lines before the next header of the section pass through. */
  lemma {:induction false} PassesThrough(a: seq<Line>, b: seq<Line>, name: Text)
    requires !HasSection(a, name)
    ensures Zeroed(a + b, name, Outside) == a + Zeroed(b, name, Outside)
  {
    if a == [] {
      assert a + b == b;
    } else {
      Uncons(a, b);
      PassesThrough(a[1..], b, name);
      assert [a[0]] + (a[1..] + Zeroed(b, name, Outside)) == a + Zeroed(b, name, Outside);
    }
  }

  lemma Regroup(x: Line, a: seq<Line>, b: seq<Line>, c: seq<Line>)
    ensures [x] + (a + b + c) == [x] + a + b + c
  {
  }

  lemma Uncons(a: seq<Line>, b: seq<Line>)
    requires a != []
    ensures (a + b)[0] == a[0] && (a + b)[1..] == a[1..] + b
  {
  }

  /** The body of a block, up to the next header, is edited as a whole. */
  lemma {:induction false} BodyEdited(body: seq<Line>, rest: seq<Line>, name: Text, seen: bool)
    requires NoHeader(body) && (rest == [] || rest[0].Header?)
    ensures Zeroed(body + rest, name, Inside(seen))
         == ZeroAll(body) + Missing(Inside(seen || !NoKey(body))) + Zeroed(rest, name, Outside)
  {
    if body == [] {
      assert body + rest == rest;
    } else {
      var tail, saw := body[1..], seen || body[0].Key?;
      Uncons(body, rest);
      BodyEdited(tail, rest, name, saw);
      Regroup(ZeroIfKey(body[0]), ZeroAll(tail), Missing(Inside(saw || !NoKey(tail))), Zeroed(rest, name, Outside));
    }
  }

  lemma {:induction false} NothingToZero(body: seq<Line>)
    requires NoKey(body)
    ensures ZeroAll(body) == body
  {
    if body != [] { NothingToZero(body[1..]); }
  }

  lemma EditedWhole(body: seq<Line>)
    ensures ZeroAll(body) + Missing(Inside(!NoKey(body))) == EditBody(body)
  {
    if NoKey(body) { NothingToZero(body); }
  }

  /** A whole block: its header stays, its body is edited. */
  lemma BlockEdited(header: Line, body: seq<Line>, rest: seq<Line>, name: Text)
    requires IsSection(header, name) && NoHeader(body) && (rest == [] || rest[0].Header?)
    ensures Zeroed([header] + (body + rest), name, Outside) == [header] + (EditBody(body) + Zeroed(rest, name, Outside))
  {
    Uncons([header], body + rest);
    BodyEdited(body, rest, name, false);
    EditedWhole(body);
    assert [header][1..] + (body + rest) == body + rest;
  }

  // ------------------------------------------------------- what the edit achieves

  /** Every block of the section sets `Enable`, and every such line is already zeroed. */
  predicate Settled(lines: seq<Line>, name: Text, place: Place) {
    if lines == [] then place != Inside(false)
    else
      && !EndsUnset(lines[0], place) && Edited(lines[0], place) == lines[0]
      && Settled(lines[1..], name, Next(lines[0], name, place))
  }

  lemma ConsSettled(x: Line, rest: seq<Line>, name: Text, place: Place)
    requires !EndsUnset(x, place) && Edited(x, place) == x && Settled(rest, name, Next(x, name, place))
    ensures Settled([x] + rest, name, place)
  {
    assert ([x] + rest)[1..] == rest;
  }

  lemma {:induction false} ZeroedSettles(lines: seq<Line>, name: Text, place: Place)
    ensures Settled(Zeroed(lines, name, place), name, place)
  {
    if lines == [] {
      if place == Inside(false) {
        ConsSettled(SET_LINE, [], name, place);
        assert [SET_LINE] + [] == [SET_LINE];
      }
    } else {
      var x := Edited(lines[0], place);
      var rest := Zeroed(lines[1..], name, Next(lines[0], name, place));
      ZeroedSettles(lines[1..], name, Next(lines[0], name, place));
      if EndsUnset(lines[0], place) {
        ConsSettled(x, rest, name, Inside(true));
        ConsSettled(SET_LINE, [x] + rest, name, place);
      } else {
        ConsSettled(x, rest, name, place);
      }
    }
  }

  /** Where everything is off already, the edit changes nothing. */
  lemma {:induction false} SettledIsFixed(lines: seq<Line>, name: Text, place: Place)
    requires Settled(lines, name, place)
    ensures Zeroed(lines, name, place) == lines
  {
    if lines != [] {
      SettledIsFixed(lines[1..], name, Next(lines[0], name, place));
      assert [lines[0]] + lines[1..] == lines;
    }
  }

  /** Editing another section leaves a settled one settled. */
  lemma {:induction false} OtherStaysSettled(lines: seq<Line>, a: Text, b: Text, placeA: Place, placeB: Place)
    requires a != b && Settled(lines, a, placeA) && (placeA.Outside? || placeB.Outside?)
    ensures Settled(Zeroed(lines, b, placeB), a, placeA)
  {
    if lines == [] {
      if placeB == Inside(false) {
        ConsSettled(SET_LINE, [], a, placeA);
        assert [SET_LINE] + [] == [SET_LINE];
      }
    } else {
      var x := Edited(lines[0], placeB);
      var rest := Zeroed(lines[1..], b, Next(lines[0], b, placeB));
      OtherStaysSettled(lines[1..], a, b, Next(lines[0], a, placeA), Next(lines[0], b, placeB));
      ConsSettled(x, rest, a, placeA);
      if EndsUnset(lines[0], placeB) { ConsSettled(SET_LINE, [x] + rest, a, placeA); }
    }
  }

  /** Appending another section leaves a settled one settled. */
  lemma {:induction false} AppendedStaysSettled(lines: seq<Line>, a: Text, place: Place, blank: bool, title: Text)
    requires Settled(lines, a, place) && a != FoldAll(title)
    ensures Settled(lines + ((if blank then [BLANK_LINE] else []) + [TitleLine(title), SET_LINE]), a, place)
  {
    var extra := (if blank then [BLANK_LINE] else []) + [TitleLine(title), SET_LINE];
    if lines == [] {
      TitleSettled(a, place, title);
      if blank { ConsSettled(BLANK_LINE, [TitleLine(title), SET_LINE], a, place); }
      assert lines + extra == extra;
    } else {
      AppendedStaysSettled(lines[1..], a, Next(lines[0], a, place), blank, title);
      ConsSettled(lines[0], lines[1..] + extra, a, place);
      assert lines + extra == [lines[0]] + (lines[1..] + extra);
    }
  }

  lemma TitleSettled(a: Text, place: Place, title: Text)
    requires place != Inside(false)
    ensures Settled([TitleLine(title), SET_LINE], a, place)
    ensures Settled([TitleLine(title), SET_LINE], a, Outside)
  {
    var p := PlaceAfter(TitleLine(title), a);
    assert Settled([], a, Next(SET_LINE, a, p));
    ConsSettled(SET_LINE, [], a, p);
    assert [SET_LINE] + [] == [SET_LINE];
    ConsSettled(TitleLine(title), [SET_LINE], a, place);
    ConsSettled(TitleLine(title), [SET_LINE], a, Outside);
    assert [TitleLine(title)] + [SET_LINE] == [TitleLine(title), SET_LINE];
  }

  /** A section that is not there is settled trivially, and stays so when it is appended. */
  lemma {:induction false} NewIsSettled(lines: seq<Line>, blank: bool, title: Text)
    requires !HasSection(lines, FoldAll(title))
    ensures Settled(lines + ((if blank then [BLANK_LINE] else []) + [TitleLine(title), SET_LINE]), FoldAll(title),
                    Outside)
  {
    var a := FoldAll(title);
    var extra := (if blank then [BLANK_LINE] else []) + [TitleLine(title), SET_LINE];
    if lines == [] {
      TitleSettled(a, Outside, title);
      if blank { ConsSettled(BLANK_LINE, [TitleLine(title), SET_LINE], a, Outside); }
      assert lines + extra == extra;
    } else {
      NewIsSettled(lines[1..], blank, title);
      ConsSettled(lines[0], lines[1..] + extra, a, Outside);
      assert lines + extra == [lines[0]] + (lines[1..] + extra);
    }
  }

  // ---------------------------------------------------------- whole files

  /** The section exists and is off in every block. */
  predicate Off(lines: seq<Line>, title: Text) {
    HasSection(lines, FoldAll(title)) && Settled(lines, FoldAll(title), Outside)
  }

  lemma {:induction false} HeadersStay(lines: seq<Line>, a: Text, b: Text, place: Place)
    ensures HasSection(Zeroed(lines, b, place), a) <==> HasSection(lines, a)
  {
    if lines == [] {
      if place == Inside(false) { assert [SET_LINE][1..] == []; }
    } else {
      var x := Edited(lines[0], place);
      var rest := Zeroed(lines[1..], b, Next(lines[0], b, place));
      HeadersStay(lines[1..], a, b, Next(lines[0], b, place));
      assert ([x] + rest)[1..] == rest;
      if EndsUnset(lines[0], place) { assert ([SET_LINE] + ([x] + rest))[1..] == [x] + rest; }
    }
  }

  lemma {:induction false} HasInJoin(a: seq<Line>, b: seq<Line>, name: Text)
    ensures HasSection(a + b, name) <==> HasSection(a, name) || HasSection(b, name)
  {
    if a == [] {
      assert a + b == b;
    } else {
      Uncons(a, b);
      HasInJoin(a[1..], b, name);
    }
  }

  lemma NewHasSection(lines: seq<Line>, title: Text)
    ensures HasSection(lines + NewSection(lines, title), FoldAll(title))
  {
    HasInJoin(lines, NewSection(lines, title), FoldAll(title));
    var line := [TitleLine(title), SET_LINE];
    assert HasSection(line, FoldAll(title));
    HasInJoin([BLANK_LINE], line, FoldAll(title));
    HasInJoin([], line, FoldAll(title));
  }

  /** The edit turns the section off. */
  lemma SetZeroTurnsOff(lines: seq<Line>, title: Text)
    ensures Off(SetZero(lines, title), title)
  {
    var name := FoldAll(title);
    if HasSection(lines, name) {
      ZeroedSettles(lines, name, Outside);
      HeadersStay(lines, name, name, Outside);
    } else {
      NewIsSettled(lines, lines != [] && !Blank(lines[|lines| - 1].text), title);
      NewHasSection(lines, title);
    }
  }

  /** It changes a file exactly when the section was not off. */
  lemma SetZeroChangesExactly(lines: seq<Line>, title: Text)
    ensures SetZero(lines, title) == lines <==> Off(lines, title)
  {
    SetZeroTurnsOff(lines, title);
    if Off(lines, title) { SettledIsFixed(lines, FoldAll(title), Outside); }
  }

  lemma OtherStaysOff(lines: seq<Line>, a: Text, b: Text)
    requires FoldAll(a) != FoldAll(b) && Off(lines, a)
    ensures Off(SetZero(lines, b), a)
  {
    if HasSection(lines, FoldAll(b)) {
      OtherStaysSettled(lines, FoldAll(a), FoldAll(b), Outside, Outside);
      HeadersStay(lines, FoldAll(a), FoldAll(b), Outside);
    } else {
      AppendedStaysSettled(lines, FoldAll(a), Outside, lines != [] && !Blank(lines[|lines| - 1].text), b);
      HasInJoin(lines, NewSection(lines, b), FoldAll(a));
    }
  }

  /** One section after the other. */
  function DisableBoth(lines: seq<Line>, a: Text, b: Text): seq<Line> {
    SetZero(SetZero(lines, a), b)
  }

  lemma BothTurnedOff(lines: seq<Line>, a: Text, b: Text)
    requires FoldAll(a) != FoldAll(b)
    ensures Off(DisableBoth(lines, a, b), a) && Off(DisableBoth(lines, a, b), b)
  {
    SetZeroTurnsOff(lines, a);
    SetZeroTurnsOff(SetZero(lines, a), b);
    OtherStaysOff(SetZero(lines, a), a, b);
  }

  /** Running the editor again changes nothing. */
  lemma SecondRunChangesNothing(lines: seq<Line>, a: Text, b: Text)
    requires FoldAll(a) != FoldAll(b)
    ensures DisableBoth(DisableBoth(lines, a, b), a, b) == DisableBoth(lines, a, b)
  {
    BothTurnedOff(lines, a, b);
    SetZeroChangesExactly(DisableBoth(lines, a, b), a);
    SetZeroChangesExactly(DisableBoth(lines, a, b), b);
  }

  // ------------------------------------------------------ everything else survives

  /** The lines that are not `Enable` lines of the section, in order. */
  function Kept(lines: seq<Line>, name: Text, place: Place): seq<Line> {
    if lines == [] then []
    else
      (if place.Inside? && lines[0].Key? then [] else [lines[0]]) + Kept(lines[1..], name, Next(lines[0], name, place))
  }

  lemma KeptCons(x: Line, rest: seq<Line>, name: Text, place: Place)
    ensures Kept([x] + rest, name, place)
         == (if place.Inside? && x.Key? then [] else [x]) + Kept(rest, name, Next(x, name, place))
  {
    assert ([x] + rest)[1..] == rest;
  }

  /** The edit keeps every other line, in order. */
  lemma {:induction false} OthersSurvive(lines: seq<Line>, name: Text, place: Place)
    ensures Kept(Zeroed(lines, name, place), name, place) == Kept(lines, name, place)
  {
    if lines == [] {
      if place == Inside(false) {
        KeptCons(SET_LINE, [], name, place);
        assert [SET_LINE] + [] == [SET_LINE];
      }
    } else {
      var x := Edited(lines[0], place);
      var rest := Zeroed(lines[1..], name, Next(lines[0], name, place));
      OthersSurvive(lines[1..], name, Next(lines[0], name, place));
      KeptCons(x, rest, name, place);
      if EndsUnset(lines[0], place) {
        KeptCons(x, rest, name, Inside(true));
        KeptCons(SET_LINE, [x] + rest, name, place);
      }
    }
  }

  /** The lines that are not `Enable` lines of either section, in order. */
  function KeptOfBoth(lines: seq<Line>, a: Text, b: Text, placeA: Place, placeB: Place): seq<Line> {
    if lines == [] then []
    else
      (if lines[0].Key? && (placeA.Inside? || placeB.Inside?) then [] else [lines[0]])
      + KeptOfBoth(lines[1..], a, b, Next(lines[0], a, placeA), Next(lines[0], b, placeB))
  }

  lemma KeptOfBothCons(x: Line, rest: seq<Line>, a: Text, b: Text, placeA: Place, placeB: Place)
    ensures KeptOfBoth([x] + rest, a, b, placeA, placeB)
         == (if x.Key? && (placeA.Inside? || placeB.Inside?) then [] else [x])
            + KeptOfBoth(rest, a, b, Next(x, a, placeA), Next(x, b, placeB))
  {
    assert ([x] + rest)[1..] == rest;
  }

  lemma {:induction false} KeptOfBothSwap(lines: seq<Line>, a: Text, b: Text, placeA: Place, placeB: Place)
    ensures KeptOfBoth(lines, a, b, placeA, placeB) == KeptOfBoth(lines, b, a, placeB, placeA)
  {
    if lines != [] { KeptOfBothSwap(lines[1..], a, b, Next(lines[0], a, placeA), Next(lines[0], b, placeB)); }
  }

  lemma {:induction false} EditKeepsBoth(lines: seq<Line>, a: Text, b: Text, placeA: Place, placeB: Place)
    requires a != b && (placeA.Outside? || placeB.Outside?)
    ensures KeptOfBoth(Zeroed(lines, a, placeA), a, b, placeA, placeB) == KeptOfBoth(lines, a, b, placeA, placeB)
  {
    if lines == [] {
      if placeA == Inside(false) {
        KeptOfBothCons(SET_LINE, [], a, b, placeA, placeB);
        assert [SET_LINE] + [] == [SET_LINE];
      }
    } else {
      var x := Edited(lines[0], placeA);
      var rest := Zeroed(lines[1..], a, Next(lines[0], a, placeA));
      EditKeepsBoth(lines[1..], a, b, Next(lines[0], a, placeA), Next(lines[0], b, placeB));
      KeptOfBothCons(x, rest, a, b, placeA, placeB);
      if EndsUnset(lines[0], placeA) {
        KeptOfBothCons(x, rest, a, b, Inside(true), placeB);
        KeptOfBothCons(SET_LINE, [x] + rest, a, b, placeA, placeB);
      }
    }
  }

  /** What appending a missing section adds beside its `Enable` line. */
  function AddedLines(lines: seq<Line>, title: Text): seq<Line> {
    if HasSection(lines, FoldAll(title)) then []
    else (if lines != [] && !Blank(lines[|lines| - 1].text) then [BLANK_LINE] else []) + [TitleLine(title)]
  }

  lemma TitleKept(title: Text, b: Text, placeA: Place, placeB: Place)
    requires FoldAll(title) != b
    ensures KeptOfBoth([TitleLine(title), SET_LINE], FoldAll(title), b, placeA, placeB) == [TitleLine(title)]
  {
    var a := FoldAll(title);
    var nextA, nextB := Next(TitleLine(title), a, placeA), Next(TitleLine(title), b, placeB);
    KeptOfBothCons(SET_LINE, [], a, b, nextA, nextB);
    assert [SET_LINE] + [] == [SET_LINE];
    KeptOfBothCons(TitleLine(title), [SET_LINE], a, b, placeA, placeB);
    assert [TitleLine(title)] + [SET_LINE] == [TitleLine(title), SET_LINE];
  }

  lemma ExtraKept(blank: bool, title: Text, b: Text, placeA: Place, placeB: Place)
    requires FoldAll(title) != b
    ensures KeptOfBoth((if blank then [BLANK_LINE] else []) + [TitleLine(title), SET_LINE], FoldAll(title), b, placeA,
                       placeB)
         == (if blank then [BLANK_LINE] else []) + [TitleLine(title)]
  {
    TitleKept(title, b, placeA, placeB);
    if blank {
      KeptOfBothCons(BLANK_LINE, [TitleLine(title), SET_LINE], FoldAll(title), b, placeA, placeB);
    } else {
      assert [] + [TitleLine(title), SET_LINE] == [TitleLine(title), SET_LINE];
      assert [] + [TitleLine(title)] == [TitleLine(title)];
    }
  }

  lemma {:induction false} AppendKeepsBoth(lines: seq<Line>, blank: bool, title: Text, b: Text, placeA: Place,
                                           placeB: Place)
    requires FoldAll(title) != b
    ensures KeptOfBoth(lines + ((if blank then [BLANK_LINE] else []) + [TitleLine(title), SET_LINE]), FoldAll(title), b,
                       placeA, placeB)
         == KeptOfBoth(lines, FoldAll(title), b, placeA, placeB)
            + ((if blank then [BLANK_LINE] else []) + [TitleLine(title)])
  {
    var a := FoldAll(title);
    var extra := (if blank then [BLANK_LINE] else []) + [TitleLine(title), SET_LINE];
    if lines == [] {
      ExtraKept(blank, title, b, placeA, placeB);
      assert lines + extra == extra;
    } else {
      AppendKeepsBoth(lines[1..], blank, title, b, Next(lines[0], a, placeA), Next(lines[0], b, placeB));
      KeptOfBothCons(lines[0], lines[1..] + extra, a, b, placeA, placeB);
      assert lines + extra == [lines[0]] + (lines[1..] + extra);
    }
  }

  lemma OneEditKeepsBoth(lines: seq<Line>, title: Text, b: Text)
    requires FoldAll(title) != b
    ensures KeptOfBoth(SetZero(lines, title), FoldAll(title), b, Outside, Outside)
         == KeptOfBoth(lines, FoldAll(title), b, Outside, Outside) + AddedLines(lines, title)
  {
    if HasSection(lines, FoldAll(title)) {
      EditKeepsBoth(lines, FoldAll(title), b, Outside, Outside);
    } else {
      AppendKeepsBoth(lines, lines != [] && !Blank(lines[|lines| - 1].text), title, b, Outside, Outside);
    }
  }

  /** Both edits together: every line that is not an `Enable` line of either section survives, in order, and
      only the titles of missing sections, each after a blank line where needed, come behind. */
  lemma OthersSurviveBoth(lines: seq<Line>, titleA: Text, titleB: Text)
    requires FoldAll(titleA) != FoldAll(titleB)
    ensures var a, b := FoldAll(titleA), FoldAll(titleB);
            KeptOfBoth(DisableBoth(lines, titleA, titleB), a, b, Outside, Outside)
            == KeptOfBoth(lines, a, b, Outside, Outside) + AddedLines(lines, titleA)
               + AddedLines(SetZero(lines, titleA), titleB)
  {
    var a, b := FoldAll(titleA), FoldAll(titleB);
    var once := SetZero(lines, titleA);
    OneEditKeepsBoth(lines, titleA, b);
    OneEditKeepsBoth(once, titleB, a);
    KeptOfBothSwap(once, a, b, Outside, Outside);
    KeptOfBothSwap(SetZero(once, titleB), a, b, Outside, Outside);
  }

  // ------------------------------------------------------------- reading back

  /** Every line is what its text reads as. */
  predicate AllRead(lines: seq<Line>) {
    lines == [] || (lines[0] == Read(lines[0].text) && AllRead(lines[1..]))
  }

  lemma ReadCons(x: Line, rest: seq<Line>)
    requires x == Read(x.text) && AllRead(rest)
    ensures AllRead([x] + rest)
  {
    assert ([x] + rest)[1..] == rest;
  }

  /** The edited lines read back as they are, so the check of the written file sees what the edit left. */
  lemma {:induction false} EditReadsBack(lines: seq<Line>, name: Text, place: Place)
    requires AllRead(lines)
    ensures AllRead(Zeroed(lines, name, place))
  {
    SetLineIsRead();
    if lines == [] {
      ReadCons(SET_LINE, []);
      assert [SET_LINE] + [] == [SET_LINE];
    } else {
      var x := Edited(lines[0], place);
      var rest := Zeroed(lines[1..], name, Next(lines[0], name, place));
      EditReadsBack(lines[1..], name, Next(lines[0], name, place));
      if lines[0].Key? { ZeroIsRead(lines[0].text); }
      ReadCons(x, rest);
      ReadCons(SET_LINE, [x] + rest);
    }
  }

  lemma {:induction false} ReadJoin(a: seq<Line>, b: seq<Line>)
    requires AllRead(a) && AllRead(b)
    ensures AllRead(a + b)
  {
    if a == [] {
      assert a + b == b;
    } else {
      Uncons(a, b);
      ReadJoin(a[1..], b);
    }
  }

  lemma NewReadsBack(lines: seq<Line>, title: Text)
    requires Title(title)
    ensures AllRead(NewSection(lines, title))
  {
    TitleIsRead(title);
    SetLineIsRead();
    ReadCons(SET_LINE, []);
    ReadCons(TitleLine(title), [SET_LINE] + []);
    assert [TitleLine(title)] + ([SET_LINE] + []) == [TitleLine(title), SET_LINE];
    assert Read(End) == BLANK_LINE;
    ReadCons(BLANK_LINE, [TitleLine(title), SET_LINE]);
    assert [] + [TitleLine(title), SET_LINE] == [TitleLine(title), SET_LINE];
  }

  lemma SetZeroReadsBack(lines: seq<Line>, title: Text)
    requires AllRead(lines) && Title(title)
    ensures AllRead(SetZero(lines, title))
  {
    if HasSection(lines, FoldAll(title)) {
      EditReadsBack(lines, FoldAll(title), Outside);
    } else {
      NewReadsBack(lines, title);
      ReadJoin(lines, NewSection(lines, title));
    }
  }
}
