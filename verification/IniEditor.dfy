/** The editor over a list of lines, by ranges of indices. */
module IniEditor {
  import opened Options
  import opened Texts
  import opened IniLines
  import opened IniFile

  /** The block of the section that starts with the header at `start` and ends before `end`. */
  predicate Block(lines: seq<Line>, name: Text, start: nat, end: nat) {
    && start < end <= |lines|
    && IsSection(lines[start], name)
    && (forall i :: start < i < end ==> !lines[i].Header?)
    && (end < |lines| ==> lines[end].Header?)
  }

  predicate NoneBetween(lines: seq<Line>, name: Text, from: nat, to: nat)
    requires from <= to <= |lines|
  {
    forall i :: from <= i < to ==> !IsSection(lines[i], name)
  }

  type Range = (nat, nat)

  /** The ranges are the blocks of the section among the first `upto` lines, in order, and miss none. */
  predicate Covers(lines: seq<Line>, name: Text, ranges: seq<Range>, upto: nat)
    requires upto <= |lines|
  {
    if ranges == [] then NoneBetween(lines, name, 0, upto)
    else
      var last := ranges[|ranges| - 1];
      && last.1 <= upto
      && Block(lines, name, last.0, last.1)
      && NoneBetween(lines, name, last.1, upto)
      && Covers(lines, name, ranges[..|ranges| - 1], last.0)
  }

  /** A block is off: it sets `Enable`, and only to 0. */
  ghost predicate BlockOff(lines: seq<Line>, start: nat, end: nat)
    requires end <= |lines|
  {
    && (exists i :: start < i < end && lines[i].Key? && lines[i].value.Some?)
    && (forall i :: start < i < end && lines[i].Key? && lines[i].value.Some? ==> lines[i].value == Some(ZERO))
  }

  /** The section exists and each of its blocks is off. */
  ghost predicate Disabled(lines: seq<Line>, title: Text) {
    && (exists i :: 0 <= i < |lines| && IsSection(lines[i], FoldAll(title)))
    && forall start: nat, end: nat :: Block(lines, FoldAll(title), start, end) ==> BlockOff(lines, start, end)
  }

  lemma {:induction false} SomewhereInside(lines: seq<Line>, name: Text)
    requires HasSection(lines, name)
    ensures exists i :: 0 <= i < |lines| && IsSection(lines[i], name)
  {
    if !IsSection(lines[0], name) {
      SomewhereInside(lines[1..], name);
      var i :| 0 <= i < |lines[1..]| && IsSection(lines[1..][i], name);
      assert lines[i + 1] == lines[1..][i];
    }
  }

  /** Inside a settled block: all settings are 0, and there is one unless one was seen before. */
  lemma {:induction false} SettledBody(lines: seq<Line>, name: Text, end: nat, seen: bool)
    requires end <= |lines| && Settled(lines, name, Inside(seen)) && (end < |lines| ==> lines[end].Header?)
    requires forall i :: 0 <= i < end ==> !lines[i].Header?
    ensures forall i :: 0 <= i < end && lines[i].Key? ==> lines[i].value == Some(ZERO)
    ensures seen || exists i :: 0 <= i < end && lines[i].Key? && lines[i].value.Some?
  {
    if end > 0 {
      var tail := lines[1..];
      SettledBody(tail, name, end - 1, seen || lines[0].Key?);
      forall i | 0 <= i < end && lines[i].Key? ensures lines[i].value == Some(ZERO) {
        if i > 0 { assert lines[i] == tail[i - 1]; }
      }
      if !seen && !lines[0].Key? {
        var i :| 0 <= i < end - 1 && tail[i].Key? && tail[i].value.Some?;
        assert lines[i + 1] == tail[i];
      }
    }
  }

  lemma {:induction false} SettledBlock(lines: seq<Line>, name: Text, place: Place, start: nat, end: nat)
    requires Settled(lines, name, place) && Block(lines, name, start, end)
    ensures BlockOff(lines, start, end)
  {
    var tail := lines[1..];
    assert forall i :: 0 <= i < |tail| ==> tail[i] == lines[i + 1];
    if start == 0 {
      SettledBody(tail, name, end - 1, false);
      var i :| 0 <= i < end - 1 && tail[i].Key? && tail[i].value.Some?;
      assert lines[i + 1].Key?;
    } else {
      SettledBlock(tail, name, Next(lines[0], name, place), start - 1, end - 1);
      var i :| start - 1 < i < end - 1 && tail[i].Key? && tail[i].value.Some?;
      assert lines[i + 1].Key?;
      forall j | start < j < end && lines[j].Key? && lines[j].value.Some? ensures lines[j].value == Some(ZERO) {
        assert tail[j - 1] == lines[j];
      }
    }
  }

  /** What the edit leaves behind is off block by block. */
  lemma OffIsDisabled(lines: seq<Line>, title: Text)
    requires Off(lines, title)
    ensures Disabled(lines, title)
  {
    SomewhereInside(lines, FoldAll(title));
    forall start: nat, end: nat | Block(lines, FoldAll(title), start, end) ensures BlockOff(lines, start, end) {
      SettledBlock(lines, FoldAll(title), Outside, start, end);
    }
  }

  // ------------------------------------------------------------- ranges and the edit

  /** The blocks from `cut` on are edited, and nothing before it. */
  ghost predicate EditedFrom(lines: seq<Line>, was: seq<Line>, name: Text, cut: nat)
    requires cut <= |was|
  {
    lines == was[..cut] + Zeroed(was[cut..], name, Outside)
  }

  lemma {:induction false} RangePassesThrough(was: seq<Line>, name: Text, from: nat, upto: nat)
    requires from <= upto <= |was| && NoneBetween(was, name, from, upto)
    ensures Zeroed(was[from..], name, Outside) == was[from..upto] + Zeroed(was[upto..], name, Outside)
    decreases upto - from
  {
    if from == upto {
      assert was[from..upto] == [];
    } else {
      RangePassesThrough(was, name, from + 1, upto);
      assert was[from..][1..] == was[from + 1..];
      assert was[from..upto] == [was[from]] + was[from + 1..upto];
    }
  }

  /** Editing may as well be said to start at the end of the previous block. */
  lemma StartEarlier(lines: seq<Line>, was: seq<Line>, name: Text, from: nat, cut: nat)
    requires from <= cut <= |was| && NoneBetween(was, name, from, cut) && EditedFrom(lines, was, name, cut)
    ensures EditedFrom(lines, was, name, from)
  {
    RangePassesThrough(was, name, from, cut);
    assert was[..cut] == was[..from] + was[from..cut];
  }

  lemma SplitBlock(was: seq<Line>, start: nat, end: nat)
    requires start < end <= |was|
    ensures was[start..] == [was[start]] + (was[start + 1..end] + was[end..])
    ensures was[..start + 1] == was[..start] + [was[start]]
  {
  }

  lemma Front(was: seq<Line>, tail: seq<Line>, start: nat, end: nat)
    requires start < end <= |was|
    ensures (was[..end] + tail)[..start + 1] == was[..start + 1]
    ensures (was[..end] + tail)[start + 1..end] == was[start + 1..end]
    ensures (was[..end] + tail)[end..] == tail
  {
  }

  lemma Regroup4(a: seq<Line>, h: Line, b: seq<Line>, c: seq<Line>)
    ensures (a + [h]) + b + c == a + ([h] + (b + c))
  {
  }

  /** One block more: its header and edited body in front of what is edited already. */
  lemma BlockMore(before: seq<Line>, lines: seq<Line>, was: seq<Line>, name: Text, start: nat, end: nat)
    requires Block(was, name, start, end) && EditedFrom(before, was, name, end)
    requires lines == before[..start + 1] + EditBody(before[start + 1..end]) + before[end..]
    ensures EditedFrom(lines, was, name, start)
  {
    var header, body, rest := was[start], was[start + 1..end], was[end..];
    Front(was, Zeroed(rest, name, Outside), start, end);
    SplitBlock(was, start, end);
    BlockEdited(header, body, rest, name);
    Regroup4(was[..start], header, EditBody(body), Zeroed(rest, name, Outside));
  }

  lemma {:induction false} ZeroAllSnoc(a: seq<Line>, x: Line)
    ensures ZeroAll(a + [x]) == ZeroAll(a) + [ZeroIfKey(x)]
    ensures NoKey(a + [x]) <==> NoKey(a) && !x.Key?
  {
    if a == [] {
      assert ([] + [x])[1..] == [];
    } else {
      Uncons(a, [x]);
      ZeroAllSnoc(a[1..], x);
    }
  }

  lemma CoversMore(lines: seq<Line>, name: Text, ranges: seq<Range>, upto: nat, further: nat)
    requires upto <= further <= |lines| && Covers(lines, name, ranges, upto) && NoneBetween(lines, name, upto, further)
    ensures Covers(lines, name, ranges, further)
  {
  }

  lemma CoversOne(lines: seq<Line>, name: Text, ranges: seq<Range>, start: nat, end: nat)
    requires Block(lines, name, start, end) && Covers(lines, name, ranges, start)
    ensures Covers(lines, name, ranges + [(start, end)], end)
  {
    assert (ranges + [(start, end)])[..|ranges|] == ranges;
  }

  function NextHeader(headers: seq<nat>, k: nat, upto: nat): nat {
    if k < |headers| then headers[k] else upto
  }

  predicate NoHeaderBetween(lines: seq<Line>, from: nat, upto: nat)
    requires upto <= |lines|
  {
    forall i :: from <= i < upto ==> !lines[i].Header?
  }

  /** The indices of the header lines among the first `upto`, in order. */
  predicate HeaderList(lines: seq<Line>, headers: seq<nat>, upto: nat)
    requires upto <= |lines|
  {
    if headers == [] then NoHeaderBetween(lines, 0, upto)
    else
      var last := headers[|headers| - 1];
      && last < upto && lines[last].Header? && NoHeaderBetween(lines, last + 1, upto)
      && HeaderList(lines, headers[..|headers| - 1], last)
  }

  lemma HeaderListOne(lines: seq<Line>, headers: seq<nat>, i: nat)
    requires i < |lines| && HeaderList(lines, headers, i)
    ensures lines[i].Header? ==> HeaderList(lines, headers + [i], i + 1)
    ensures !lines[i].Header? ==> HeaderList(lines, headers, i + 1)
  {
    assert (headers + [i])[..|headers|] == headers;
  }

  /** From one header to the next there is no other. */
  lemma {:induction false} HeaderAt(lines: seq<Line>, headers: seq<nat>, upto: nat, k: nat)
    requires upto <= |lines| && HeaderList(lines, headers, upto) && k < |headers|
    ensures var end := NextHeader(headers, k + 1, upto);
            && headers[k] < end <= upto && lines[headers[k]].Header? && NoHeaderBetween(lines, headers[k] + 1, end)
            && (k + 1 < |headers| ==> end < upto && lines[end].Header?)
  {
    var init, last := headers[..|headers| - 1], headers[|headers| - 1];
    if k < |init| { HeaderAt(lines, init, last, k); }
  }

  lemma {:induction false} FirstHeader(lines: seq<Line>, headers: seq<nat>, upto: nat)
    requires upto <= |lines| && HeaderList(lines, headers, upto)
    ensures NextHeader(headers, 0, upto) <= upto && NoHeaderBetween(lines, 0, NextHeader(headers, 0, upto))
  {
    if headers != [] { FirstHeader(lines, headers[..|headers| - 1], headers[|headers| - 1]); }
  }

  /** What lies between two headers is a block of the section or holds none of it. */
  lemma HeaderBlock(lines: seq<Line>, name: Text, headers: seq<nat>, k: nat)
    requires HeaderList(lines, headers, |lines|) && k < |headers|
    ensures var start, end := headers[k], NextHeader(headers, k + 1, |lines|);
            && start < end <= |lines|
            && if IsSection(lines[start], name) then Block(lines, name, start, end)
               else NoneBetween(lines, name, start, end)
  {
    HeaderAt(lines, headers, |lines|, k);
    var start, end := headers[k], NextHeader(headers, k + 1, |lines|);
    forall i | start < i < end ensures !lines[i].Header? {}
  }

  lemma {:induction false} CoversAll(lines: seq<Line>, name: Text, ranges: seq<Range>, upto: nat, start: nat, end: nat)
    requires upto <= |lines| && Covers(lines, name, ranges, upto) && Block(lines, name, start, end) && start < upto
    ensures (start, end) in ranges
  {
    if ranges != [] {
      var last := ranges[|ranges| - 1];
      if start < last.0 { CoversAll(lines, name, ranges[..|ranges| - 1], last.0, start, end); }
    }
  }

  lemma {:induction false} CoversBlocks(lines: seq<Line>, name: Text, ranges: seq<Range>, upto: nat, k: nat)
    requires upto <= |lines| && Covers(lines, name, ranges, upto) && k < |ranges|
    ensures Block(lines, name, ranges[k].0, ranges[k].1)
  {
    if k < |ranges| - 1 { CoversBlocks(lines, name, ranges[..|ranges| - 1], ranges[|ranges| - 1].0, k); }
  }

  /** The section is off exactly when it has a range and every range is off. */
  lemma DisabledByRanges(lines: seq<Line>, title: Text, ranges: seq<Range>)
    requires Covers(lines, FoldAll(title), ranges, |lines|)
    ensures forall k :: 0 <= k < |ranges| ==> Block(lines, FoldAll(title), ranges[k].0, ranges[k].1)
    ensures Disabled(lines, title)
            <==> ranges != []
                 && forall k :: 0 <= k < |ranges| && ranges[k].1 <= |lines| ==>
                      BlockOff(lines, ranges[k].0, ranges[k].1)
  {
    var name := FoldAll(title);
    forall k | 0 <= k < |ranges| ensures Block(lines, name, ranges[k].0, ranges[k].1) {
      CoversBlocks(lines, name, ranges, |lines|, k);
    }
    if ranges == [] {
    } else {
      assert IsSection(lines[ranges[0].0], name);
      forall start: nat, end: nat | Block(lines, name, start, end) ensures (start, end) in ranges {
        CoversAll(lines, name, ranges, |lines|, start, end);
      }
    }
  }

  // ------------------------------------------------------------- the editor itself

  class AssistantIni {
    var lines: seq<Line>

    constructor (text: seq<Line>)
      ensures lines == text
    {
      lines := text;
    }

    method Headers() returns (headers: seq<nat>)
      ensures HeaderList(lines, headers, |lines|)
    {
      headers := [];
      for i := 0 to |lines|
        invariant HeaderList(lines, headers, i)
      {
        HeaderListOne(lines, headers, i);
        if lines[i].Header? { headers := headers + [i]; }
      }
    }

    method SectionRanges(name: Text) returns (ranges: seq<Range>)
      ensures Covers(lines, name, ranges, |lines|)
    {
      var headers := Headers();
      FirstHeader(lines, headers, |lines|);
      ranges := [];
      for n := 0 to |headers|
        invariant NextHeader(headers, n, |lines|) <= |lines|
        invariant Covers(lines, name, ranges, NextHeader(headers, n, |lines|))
      {
        var start := headers[n];
        var end := if n + 1 < |headers| then headers[n + 1] else |lines|;
        HeaderBlock(lines, name, headers, n);
        if IsSection(lines[start], name) {
          CoversOne(lines, name, ranges, start, end);
          ranges := ranges + [(start, end)];
        } else {
          CoversMore(lines, name, ranges, start, end);
        }
      }
    }

    method EditBlock(start: nat, end: nat)
      requires start < end <= |lines|
      modifies this
      ensures lines == old(lines)[..start + 1] + EditBody(old(lines)[start + 1..end]) + old(lines)[end..]
    {
      ghost var was := lines;
      var found := false;
      for i := start + 1 to end
        invariant |lines| == |was| && found == !NoKey(was[start + 1..i])
        invariant lines == was[..start + 1] + ZeroAll(was[start + 1..i]) + was[i..]
      {
        BodySnoc(was, start, i);
        if lines[i].Key? {
          found := true;
          lines := lines[i := Zero(lines[i])];
        }
        OneZeroed(was[..start + 1], ZeroAll(was[start + 1..i]), was, i);
      }
      if !found {
        NothingToZero(was[start + 1..end]);
        lines := lines[..end] + [SET_LINE] + lines[end..];
      }
    }

    method AppendSection(title: Text)
      modifies this
      ensures lines == old(lines) + NewSection(old(lines), title)
    {
      if lines != [] && !Blank(lines[|lines| - 1].text) { lines := lines + [BLANK_LINE]; }
      lines := lines + [TitleLine(title), SET_LINE];
    }

    /** The blocks are edited from the last to the first, so that an inserted line moves none that is still to come. */
    method EditBlocks(name: Text, ranges: seq<Range>)
      requires Covers(lines, name, ranges, |lines|)
      modifies this
      ensures lines == Zeroed(old(lines), name, Outside)
    {
      ghost var was := lines;
      var n := |ranges|;
      ghost var cut: nat := |was|;
      assert was[|was|..] == [] && was[..|was|] == was && ranges[..|ranges|] == ranges;
      while n > 0
        invariant 0 <= n <= |ranges| && cut <= |was|
        invariant Covers(was, name, ranges[..n], cut)
        invariant EditedFrom(lines, was, name, cut)
      {
        n := n - 1;
        var (start, end) := ranges[n];
        LastRange(ranges, n);
        StartEarlier(lines, was, name, end, cut);
        ghost var before := lines;
        EditBlock(start, end);
        BlockMore(before, lines, was, name, start, end);
        cut := start;
      }
      assert ranges[..0] == [];
      StartEarlier(lines, was, name, 0, cut);
      assert was[0..] == was && was[..0] == [];
    }

    /** The edit by ranges is the forward edit. */
    method SetEnableZero(title: Text)
      modifies this
      ensures lines == SetZero(old(lines), title)
    {
      var ranges := SectionRanges(FoldAll(title));
      CoversExactly(lines, FoldAll(title), ranges);
      if ranges == [] {
        AppendSection(title);
      } else {
        EditBlocks(FoldAll(title), ranges);
      }
    }

    /** Does the block set `Enable`, and only to 0? */
    method CheckBlock(start: nat, end: nat) returns (ok: bool)
      requires start < end <= |lines|
      ensures ok <==> BlockOff(lines, start, end)
    {
      var some, all := false, true;
      for i := start + 1 to end
        invariant some <==> exists j :: start < j < i && lines[j].Key? && lines[j].value.Some?
        invariant all <==>
                  forall j :: start < j < i && lines[j].Key? && lines[j].value.Some? ==> lines[j].value == Some(ZERO)
      {
        if lines[i].Key? && lines[i].value.Some? {
          some := true;
          all := all && lines[i].value == Some(ZERO);
        }
      }
      ok := some && all;
    }

    method AssertDisabled(title: Text) returns (ok: bool)
      ensures ok <==> Disabled(lines, title)
    {
      var ranges := SectionRanges(FoldAll(title));
      DisabledByRanges(lines, title, ranges);
      if ranges == [] { return false; }
      for k := 0 to |ranges|
        invariant forall j :: 0 <= j < k && ranges[j].1 <= |lines| ==> BlockOff(lines, ranges[j].0, ranges[j].1)
      {
        var off := CheckBlock(ranges[k].0, ranges[k].1);
        if !off { return false; }
      }
      ok := true;
    }

    /** Both sections are forced off; the final check never fails. */
    method DisableInternalMcp() returns (ok: bool)
      modifies this
      ensures lines == DisableBoth(old(lines), MCP_METATRADER, MCP_METAEDITOR)
      ensures Disabled(lines, MCP_METATRADER) && Disabled(lines, MCP_METAEDITOR) && ok
    {
      SetEnableZero(MCP_METATRADER);
      SetEnableZero(MCP_METAEDITOR);
      McpTitles();
      BothTurnedOff(old(lines), MCP_METATRADER, MCP_METAEDITOR);
      OffIsDisabled(lines, MCP_METATRADER);
      OffIsDisabled(lines, MCP_METAEDITOR);
      ok := AssertDisabled(MCP_METATRADER);
      if ok { ok := AssertDisabled(MCP_METAEDITOR); }
    }
  }

  function McpMeta(rest: Text): Text {
    Char('M', Char('C', Char('P', Char('.', Char('M', Char('e', Char('t', Char('a', rest))))))))
  }

  const MCP_METATRADER := McpMeta(Char('T', Char('r', Char('a', Char('d', Char('e', Char('r', End)))))))
  const MCP_METAEDITOR := McpMeta(Char('E', Char('d', Char('i', Char('t', Char('o', Char('r', End)))))))

  lemma FoldMcp(rest: Text)
    ensures FoldAll(McpMeta(rest))
         == Char('m', Char('c', Char('p', Char('.', Char('m', Char('e', Char('t', Char('a', FoldAll(rest)))))))))
    ensures Bare(rest) ==> Title(McpMeta(rest))
  {
    var t := McpMeta(rest);
    assert FoldAll(t.rest.rest.rest.rest.rest.rest) == Char('t', Char('a', FoldAll(rest)));
    assert FoldAll(t.rest.rest.rest.rest) == Char('m', Char('e', Char('t', Char('a', FoldAll(rest)))));
    assert FoldAll(t.rest.rest) == Char('p', Char('.', Char('m', Char('e', Char('t', Char('a', FoldAll(rest)))))));
    if Bare(rest) {
      assert Bare(t.rest.rest.rest.rest.rest.rest);
      assert Bare(t.rest.rest.rest.rest);
      assert Bare(t.rest.rest);
    }
  }

  /** The two titles are well formed and name different sections. */
  lemma McpTitles()
    ensures Title(MCP_METATRADER) && Title(MCP_METAEDITOR) && FoldAll(MCP_METATRADER) != FoldAll(MCP_METAEDITOR)
  {
    var trader := MCP_METATRADER.rest.rest.rest.rest.rest.rest.rest.rest;
    var editor := MCP_METAEDITOR.rest.rest.rest.rest.rest.rest.rest.rest;
    assert Bare(trader.rest.rest.rest) && Bare(trader);
    assert Bare(editor.rest.rest.rest) && Bare(editor);
    FoldMcp(trader);
    FoldMcp(editor);
  }

  lemma BodySnoc(was: seq<Line>, start: nat, i: nat)
    requires start < i < |was|
    ensures ZeroAll(was[start + 1..i + 1]) == ZeroAll(was[start + 1..i]) + [ZeroIfKey(was[i])]
    ensures NoKey(was[start + 1..i + 1]) <==> NoKey(was[start + 1..i]) && !was[i].Key?
  {
    assert was[start + 1..i + 1] == was[start + 1..i] + [was[i]];
    ZeroAllSnoc(was[start + 1..i], was[i]);
  }

  lemma OneZeroed(a: seq<Line>, b: seq<Line>, was: seq<Line>, i: nat)
    requires i == |a| + |b| && i < |was|
    ensures (a + b + was[i..])[i] == was[i]
    ensures (a + b + was[i..])[i := ZeroIfKey(was[i])] == a + (b + [ZeroIfKey(was[i])]) + was[i + 1..]
  {
  }

  lemma LastRange(ranges: seq<Range>, n: nat)
    requires n < |ranges|
    ensures ranges[..n + 1][..n] == ranges[..n] && ranges[..n + 1] != [] && ranges[..n + 1][n] == ranges[n]
  {
  }

  lemma CoversExactly(lines: seq<Line>, name: Text, ranges: seq<Range>)
    requires Covers(lines, name, ranges, |lines|)
    ensures ranges == [] <==> !HasSection(lines, name)
  {
    if ranges == [] {
      if HasSection(lines, name) { SomewhereInside(lines, name); }
    } else {
      SomeIsSome(lines, name, ranges[|ranges| - 1].0);
    }
  }

  lemma {:induction false} SomeIsSome(lines: seq<Line>, name: Text, i: nat)
    requires i < |lines| && IsSection(lines[i], name)
    ensures HasSection(lines, name)
  {
    if i > 0 { SomeIsSome(lines[1..], name, i - 1); }
  }
}
