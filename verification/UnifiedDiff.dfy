/**
  Unified diffs: hunks with their removals and additions regrouped, their text, and what patching with it gives.
  `Printed` is what a hunk's text says: its header fields and its tagged lines.
 */
module UnifiedDiffs {
  import opened Wrappers
  import opened EditScripts
  import opened DiffTexts

  // ----- the two sides of a list of lines

  function LeftOf(lines: seq<Line>): seq<string>
    decreases |lines|, 0
  {
    if lines == [] then [] else LeftWith(lines[..|lines| - 1], lines[|lines| - 1])
  }

  function LeftWith(lines: seq<Line>, last: Line): seq<string>
    decreases |lines|, 1
  {
    LeftOf(lines) + OnLeft(last)
  }

  function RightOf(lines: seq<Line>): seq<string>
    decreases |lines|, 0
  {
    if lines == [] then [] else RightWith(lines[..|lines| - 1], lines[|lines| - 1])
  }

  function RightWith(lines: seq<Line>, last: Line): seq<string>
    decreases |lines|, 1
  {
    RightOf(lines) + OnRight(last)
  }

  function OnLeft(line: Line): seq<string> { if line.tag != '+' then [line.text] else [] }

  function OnRight(line: Line): seq<string> { if line.tag != '-' then [line.text] else [] }

  lemma SidesOfSnoc(lines: seq<Line>, line: Line)
    ensures LeftOf(lines + [line]) == LeftOf(lines) + OnLeft(line)
    ensures RightOf(lines + [line]) == RightOf(lines) + OnRight(line)
  {
    assert (lines + [line])[..|lines|] == lines;
    assert LeftOf(lines + [line]) == LeftWith(lines, line) && RightOf(lines + [line]) == RightWith(lines, line);
  }

  lemma {:induction false} SidesJoin(a: seq<Line>, b: seq<Line>)
    ensures LeftOf(a + b) == LeftOf(a) + LeftOf(b) && RightOf(a + b) == RightOf(a) + RightOf(b)
  {
    if b == [] {
      assert a + b == a;
    } else {
      var front, last := b[..|b| - 1], b[|b| - 1];
      SidesJoin(a, front);
      SidesOfSnoc(a + front, last);
      SidesOfSnoc(front, last);
      LastApart(a, b);
      Regroup(LeftOf(a), LeftOf(front), OnLeft(last));
      Regroup(RightOf(a), RightOf(front), OnRight(last));
    }
  }

  lemma LastApart(a: seq<Line>, b: seq<Line>)
    requires b != []
    ensures b == b[..|b| - 1] + [b[|b| - 1]] && a + b == (a + b[..|b| - 1]) + [b[|b| - 1]]
  {
  }

  lemma Regroup(a: seq<string>, b: seq<string>, c: seq<string>)
    ensures (a + b) + c == a + (b + c)
  {
  }

  lemma {:induction false} OneSided(lines: seq<Line>, tag: char)
    requires tag in {'-', '+'} && AllTagged(lines, tag)
    ensures tag == '+' ==> LeftOf(lines) == [] && |RightOf(lines)| == |lines|
    ensures tag == '-' ==> RightOf(lines) == [] && |LeftOf(lines)| == |lines|
  {
    if lines != [] {
      var front, last := lines[..|lines| - 1], lines[|lines| - 1];
      OneSided(front, tag);
      SidesOfSnoc(front, last);
      assert lines == front + [last];
    }
  }

  /** Within a run of edits no removal comes after an addition. */
  ghost predicate Grouped(lines: seq<Line>) {
    forall k :: 0 < k < |lines| && lines[k].tag == '-' ==> lines[k - 1].tag != '+'
  }

  // ----- context

  /** Common lines before the first edit, behind the last one, and the most between two edits. */
  datatype Shape = Shape(head: nat, tail: nat, gap: nat, edits: bool)

  function ShapeOf(lines: seq<Line>): Shape
    decreases |lines|, 0
  {
    if lines == [] then Shape(0, 0, 0, false) else ShapeWith(lines[..|lines| - 1], lines[|lines| - 1])
  }

  function ShapeWith(lines: seq<Line>, last: Line): Shape
    decreases |lines|, 1
  {
    Reshaped(ShapeOf(lines), last.tag)
  }

  function Reshaped(s: Shape, tag: char): Shape {
    if tag == ' ' then Shape(if s.edits then s.head else s.head + 1, s.tail + 1, s.gap, s.edits)
    else Shape(s.head, 0, if s.edits && s.tail > s.gap then s.tail else s.gap, true)
  }

  lemma ShapeOfSnoc(lines: seq<Line>, line: Line)
    ensures ShapeOf(lines + [line]) == Reshaped(ShapeOf(lines), line.tag)
  {
    assert (lines + [line])[..|lines|] == lines;
    assert ShapeOf(lines + [line]) == ShapeWith(lines, line);
  }

  /** A group of edits has the shape of a single one. */
  lemma {:induction false} ShapeOfGroup(lines: seq<Line>, group: seq<Line>, tag: char)
    requires group != [] && tag != ' ' && forall k :: 0 <= k < |group| ==> group[k].tag != ' '
    ensures ShapeOf(lines + group) == Reshaped(ShapeOf(lines), tag)
  {
    var front, last := group[..|group| - 1], group[|group| - 1];
    assert lines + group == (lines + front) + [last];
    ShapeOfSnoc(lines + front, last);
    if front == [] {
      assert lines + front == lines;
    } else {
      ShapeOfGroup(lines, front, tag);
    }
  }

  /** Wherever in the group the new edit goes. */
  lemma ShapeOfInsertion(lines: seq<Line>, group: seq<Line>, larger: seq<Line>, tag: char)
    requires forall k :: 0 <= k < |group| ==> group[k].tag != ' '
    requires forall k :: 0 <= k < |larger| ==> larger[k].tag != ' '
    requires larger != [] && tag != ' '
    ensures ShapeOf(lines + larger) == Reshaped(ShapeOf(lines + group), tag)
  {
    ShapeOfGroup(lines, larger, tag);
    if group == [] {
      assert lines + group == lines;
    } else {
      ShapeOfGroup(lines, group, tag);
    }
  }

  /** What a shape says of the lines: common ones before the first edit and behind the last one, and no longer stretch
      between two edits. */
  lemma ShapeMeans(lines: seq<Line>)
    ensures var s := ShapeOf(lines);
      if s.edits then
        && s.head < |lines| && lines[s.head].tag != ' ' && s.tail < |lines| && lines[|lines| - 1 - s.tail].tag != ' '
        && (forall k :: 0 <= k < s.head || |lines| - s.tail <= k < |lines| ==> lines[k].tag == ' ')
        && (forall a, b :: Neighbours(lines, a, b) ==> b - a - 1 <= s.gap)
      else
        s.head == s.tail == |lines| && forall k :: 0 <= k < |lines| ==> lines[k].tag == ' '
  {
    ShapeFits(lines);
  }

  ghost predicate HasShape(lines: seq<Line>, s: Shape) {
    if s.edits then HasEnds(lines, s) && forall a, b :: Neighbours(lines, a, b) ==> b - a - 1 <= s.gap
    else s.head == s.tail == |lines| && forall k :: 0 <= k < |lines| ==> lines[k].tag == ' '
  }

  ghost predicate HasEnds(lines: seq<Line>, s: Shape) {
    && s.head < |lines| && lines[s.head].tag != ' ' && s.tail < |lines| && lines[|lines| - 1 - s.tail].tag != ' '
    && forall k :: 0 <= k < s.head || |lines| - s.tail <= k < |lines| ==> lines[k].tag == ' '
  }

  lemma {:induction false} ShapeFits(lines: seq<Line>)
    ensures HasShape(lines, ShapeOf(lines))
  {
    if lines != [] {
      var front, last := lines[..|lines| - 1], lines[|lines| - 1];
      ShapeFits(front);
      assert lines == front + [last];
      ShapeOfSnoc(front, last);
      if last.tag == ' ' {
        CommonFits(front, ShapeOf(front), last);
      } else {
        EditFits(front, ShapeOf(front), last);
      }
    }
  }

  lemma CommonFits(front: seq<Line>, s: Shape, last: Line)
    requires HasShape(front, s) && last.tag == ' '
    ensures HasShape(front + [last], Reshaped(s, last.tag))
  {
    forall a, b | Neighbours(front + [last], a, b) ensures Neighbours(front, a, b) {
      SameInFront(front, last, a, b);
    }
  }

  lemma EditFits(front: seq<Line>, s: Shape, last: Line)
    requires HasShape(front, s) && last.tag != ' '
    ensures HasShape(front + [last], Reshaped(s, last.tag))
  {
    forall a, b | Neighbours(front + [last], a, b) && b < |front| ensures Neighbours(front, a, b) {
      SameInFront(front, last, a, b);
    }
    forall a, b | Neighbours(front + [last], a, b) && b == |front| ensures s.edits && b - a - 1 <= s.tail {
      assert front[a].tag != ' ';
      if s.edits {
        assert a >= |front| - 1 - s.tail by {
          assert (front + [last])[|front| - 1 - s.tail].tag != ' ';
        }
      }
    }
  }

  lemma SameInFront(front: seq<Line>, last: Line, a: int, b: int)
    requires Neighbours(front + [last], a, b) && b < |front|
    ensures Neighbours(front, a, b)
  {
    assert forall k :: a <= k <= b ==> front[k] == (front + [last])[k];
  }

  /** Two edits with nothing but common lines between them. */
  predicate Neighbours(lines: seq<Line>, a: int, b: int) {
    && 0 <= a < b < |lines| && lines[a].tag != ' ' && lines[b].tag != ' '
    && forall k :: a < k < b ==> lines[k].tag == ' '
  }

  // ----- patching, as an independent reader of printed hunks does it

  /** Copies up to the hunk, checks its left side and its fields, and puts its right side in place. */
  function ApplyHunk(left: seq<string>, cursor: nat, out: seq<string>, h: Printed): Option<(nat, seq<string>)> {
    var l, r := LeftOf(h.lines), RightOf(h.lines);
    if h.header.left.None? && h.header.right.None? then None
    else
      var start :=
        if h.header.left.Some? then h.header.left.value.0 - 1 else h.header.right.value.0 - 1 - |out| + cursor;
      if !(cursor <= start && start + |l| <= |left| && left[start..start + |l|] == l) then None
      else if h.header.left.Some? && h.header.left.value.1 != |l| then None
      else if h.header.right.Some? && h.header.right.value != (|out| + start - cursor + 1, |r|) then None
      else Some((start + |l|, out + left[cursor..start] + r))
  }

  function ApplyHunks(left: seq<string>, hunks: seq<Printed>): Option<(nat, seq<string>)>
    decreases |hunks|, 0
  {
    if hunks == [] then Some((0, [])) else ApplyWith(left, hunks[..|hunks| - 1], hunks[|hunks| - 1])
  }

  function ApplyWith(left: seq<string>, hunks: seq<Printed>, last: Printed): Option<(nat, seq<string>)>
    decreases |hunks|, 1
  {
    match ApplyHunks(left, hunks)
    case None => None
    case Some((cursor, out)) => ApplyHunk(left, cursor, out, last)
  }

  /** What is left over after the last hunk is copied. */
  function Patch(left: seq<string>, hunks: seq<Printed>): Option<seq<string>> {
    match ApplyHunks(left, hunks)
    case None => None
    case Some((cursor, out)) => if cursor <= |left| then Some(out + left[cursor..]) else None
  }

  // ----- hunks

  predicate AllTagged(lines: seq<Line>, tag: char) {
    forall k :: 0 <= k < |lines| ==> lines[k].tag == tag
  }

  /** No edit at the end waits for more of its kind. */
  ghost predicate Closed(lines: seq<Line>) {
    Tagged(lines) && Grouped(lines) && (lines != [] ==> lines[|lines| - 1].tag == ' ')
  }

  class Hunk {
    const leftStart: nat
    const rightStart: nat
    var adds: nat
    var removes: nat
    var common: nat
    var hunk: seq<Line>
    var hunkAdds: seq<Line>
    var hunkRemoves: seq<Line>

    /** The two sides of the lines, and their shape. */
    ghost var leftSide: seq<string>
    ghost var rightSide: seq<string>
    ghost var shape: Shape

    /** The lines as they will be printed. */
    ghost function Body(): seq<Line>
      reads this
    {
      hunk + hunkRemoves + hunkAdds
    }

    /** What the text of the hunk will say. */
    ghost function Said(): Printed
      reads this
    {
      Printed(Header(if removes > 0 then Some((leftStart, removes + common)) else None,
                     if adds > 0 then Some((rightStart, adds + common)) else None),
              Body())
    }

    /** The pending edits are what they should be, and come behind a common line. */
    ghost predicate Tidy()
      reads this
    {
      AllTagged(hunkAdds, '+') && AllTagged(hunkRemoves, '-') && Closed(hunk)
    }

    ghost predicate Valid()
      reads this
    {
      && Tidy()
      && leftSide == LeftOf(Body()) && rightSide == RightOf(Body()) && shape == ShapeOf(Body())
      && |leftSide| == removes + common && |rightSide| == adds + common
      && (shape.edits <==> HasEdits())
    }

    constructor (leftStart: nat, rightStart: nat)
      ensures Valid() && Body() == [] && leftSide == rightSide == [] && shape == Shape(0, 0, 0, false)
      ensures this.leftStart == leftStart && this.rightStart == rightStart
    {
      this.leftStart, this.rightStart := leftStart, rightStart;
      adds, removes, common := 0, 0, 0;
      hunk, hunkAdds, hunkRemoves := [], [], [];
      leftSide, rightSide, shape := [], [], Shape(0, 0, 0, false);
    }

    /** However the lines are regrouped, each side grows by this line, if the line is on it, at its end. */
    method PushLine(edit: char, line: string)
      requires Valid() && edit in {' ', '-', '+'}
      modifies this
      ensures Valid() && shape == Reshaped(old(shape), edit)
      ensures leftSide == old(leftSide) + OnLeft(Line(edit, line))
      ensures rightSide == old(rightSide) + OnRight(Line(edit, line))
      ensures adds == old(adds) + if edit == '+' then 1 else 0
      ensures removes == old(removes) + if edit == '-' then 1 else 0
    {
      match edit
      case ' ' => PushCommon(line);
      case '-' => PushRemoval(line);
      case '+' => PushAddition(line);
    }

    method PushCommon(line: string)
      requires Valid()
      modifies this
      ensures Valid() && shape == Reshaped(old(shape), ' ') && adds == old(adds) && removes == old(removes)
      ensures leftSide == old(leftSide) + [line] && rightSide == old(rightSide) + [line]
    {
      common := common + 1;
      FlushEdits();
      AppendCommon(line);
    }

    method AppendCommon(line: string)
      requires hunkAdds == hunkRemoves == [] && Tagged(hunk) && Grouped(hunk)
      requires leftSide == LeftOf(hunk) && rightSide == RightOf(hunk) && shape == ShapeOf(hunk)
      requires |leftSide| + 1 == removes + common && |rightSide| + 1 == adds + common && (shape.edits <==> HasEdits())
      modifies this`hunk, this`leftSide, this`rightSide, this`shape
      ensures Valid() && shape == Reshaped(old(shape), ' ')
      ensures leftSide == old(leftSide) + [line] && rightSide == old(rightSide) + [line]
    {
      CommonPushed(hunk, Line(' ', line));
      hunk := hunk + [Line(' ', line)];
      leftSide, rightSide, shape := leftSide + [line], rightSide + [line], Reshaped(shape, ' ');
    }

    method PushRemoval(line: string)
      requires Valid()
      modifies this`removes, this`hunkRemoves, this`leftSide, this`shape
      ensures Valid() && shape == Reshaped(old(shape), '-') && removes == old(removes) + 1
      ensures leftSide == old(leftSide) + [line]
    {
      RemovalPushed(hunk, hunkRemoves, hunkAdds, Line('-', line));
      removes := removes + 1;
      hunkRemoves := hunkRemoves + [Line('-', line)];
      leftSide, shape := leftSide + [line], Reshaped(shape, '-');
    }

    method PushAddition(line: string)
      requires Valid()
      modifies this`adds, this`hunkAdds, this`rightSide, this`shape
      ensures Valid() && shape == Reshaped(old(shape), '+') && adds == old(adds) + 1
      ensures rightSide == old(rightSide) + [line]
    {
      AdditionPushed(hunk, hunkRemoves, hunkAdds, Line('+', line));
      adds := adds + 1;
      hunkAdds := hunkAdds + [Line('+', line)];
      rightSide, shape := rightSide + [line], Reshaped(shape, '+');
    }

    /** Removals first, then additions. */
    method FlushEdits()
      requires Tidy()
      modifies this`hunk, this`hunkAdds, this`hunkRemoves
      ensures Body() == old(Body()) && hunk == Body() && hunkAdds == hunkRemoves == []
      ensures Tagged(hunk) && Grouped(hunk)
    {
      GroupedBody(hunk, hunkRemoves, hunkAdds);
      hunk, hunkRemoves := hunk + hunkRemoves, [];
      hunk, hunkAdds := hunk + hunkAdds, [];
      assert hunk + [] + [] == hunk;
    }

    /** The header and the lines, each ended, and what they say is true. */
    method PrintTo() returns (text: string)
      requires Valid()
      modifies this`hunk, this`hunkAdds, this`hunkRemoves
      ensures text == Ended(TextsOf(old(Said())))
      ensures old(SaysTrue(Said()))
    {
      ghost var said := Said();
      SaidIsTrue();
      var head := PrintHeader();
      FlushEdits();
      var body := PrintLines(hunk);
      TextPut(said, head, body);
      text := head + body;
    }

    /** The sides are left out where nothing is removed, respectively added. */
    method PrintHeader() returns (text: string)
      ensures text == HeaderText(Said().header) + "\n"
    {
      text := "@@ ";
      if removes > 0 {
        text := text + SideText('-', (leftStart, removes + common));
      }
      if removes > 0 && adds > 0 {
        text := text + " ";
      }
      if adds > 0 {
        text := text + SideText('+', (rightStart, adds + common));
      }
      text := text + " @@\n";
    }

    /** Removals come before additions, and the fields tell the true number of lines on their side. */
    ghost predicate SaysTrue(said: Printed)
      reads this
    {
      && Grouped(said.lines) && Tagged(said.lines)
      && said.header.left == (if removes > 0 then Some((leftStart, |LeftOf(said.lines)|)) else None)
      && said.header.right == (if adds > 0 then Some((rightStart, |RightOf(said.lines)|)) else None)
    }

    lemma SaidIsTrue()
      requires Valid()
      ensures SaysTrue(Said())
    {
      GroupedBody(hunk, hunkRemoves, hunkAdds);
    }

    lemma SaidCovers()
      requires Valid() && HasEdits()
      ensures Covers(Said(), leftSide, rightSide, leftStart, rightStart)
      ensures Grouped(Said().lines) && ShapeOf(Said().lines) == shape
    {
      SaidIsTrue();
    }

    predicate HasEdits()
      reads this
    {
      adds > 0 || removes > 0
    }
  }

  method PrintLines(lines: seq<Line>) returns (text: string)
    ensures text == Ended(LineTexts(lines))
  {
    text := "";
    var k := 0;
    while k < |lines|
      invariant k <= |lines| && text == Ended(LineTexts(lines[..k]))
    {
      BodyTextSnoc(lines, k);
      text := text + LineText(lines[k]) + "\n";
      k := k + 1;
    }
    assert lines[..|lines|] == lines;
  }

  lemma CommonPushed(hunk: seq<Line>, line: Line)
    requires Grouped(hunk) && line.tag == ' '
    ensures var lines := hunk + [line] + [] + [];
      && LeftOf(lines) == LeftOf(hunk) + [line.text] && RightOf(lines) == RightOf(hunk) + [line.text]
      && ShapeOf(lines) == Reshaped(ShapeOf(hunk), ' ') && Grouped(hunk + [line])
  {
    SidesOfSnoc(hunk, line);
    ShapeOfSnoc(hunk, line);
    GroupedSnoc(hunk, line);
    assert hunk + [line] + [] + [] == hunk + [line];
  }

  lemma RemovalPushed(hunk: seq<Line>, removes: seq<Line>, adds: seq<Line>, line: Line)
    requires AllTagged(adds, '+') && AllTagged(removes, '-')
    requires line.tag == '-'
    ensures var before, after := hunk + removes + adds, hunk + (removes + [line]) + adds;
      && LeftOf(after) == LeftOf(before) + [line.text] && RightOf(after) == RightOf(before)
      && ShapeOf(after) == Reshaped(ShapeOf(before), '-') && AllTagged(removes + [line], '-')
  {
    BodySides(hunk, removes, adds);
    BodySides(hunk, removes + [line], adds);
    SidesOfSnoc(removes, line);
    BodyShape(hunk, removes, adds, removes + [line], adds, '-');
    Regroup(LeftOf(hunk), LeftOf(removes), [line.text]);
  }

  lemma AdditionPushed(hunk: seq<Line>, removes: seq<Line>, adds: seq<Line>, line: Line)
    requires AllTagged(adds, '+') && AllTagged(removes, '-')
    requires line.tag == '+'
    ensures var before, after := hunk + removes + adds, hunk + removes + (adds + [line]);
      && RightOf(after) == RightOf(before) + [line.text] && LeftOf(after) == LeftOf(before)
      && ShapeOf(after) == Reshaped(ShapeOf(before), '+') && AllTagged(adds + [line], '+')
  {
    BodySides(hunk, removes, adds);
    BodySides(hunk, removes, adds + [line]);
    SidesOfSnoc(adds, line);
    BodyShape(hunk, removes, adds, removes, adds + [line], '+');
    Regroup(RightOf(hunk), RightOf(adds), [line.text]);
  }

  lemma GroupedSnoc(lines: seq<Line>, line: Line)
    requires Grouped(lines) && line.tag != '-'
    ensures Grouped(lines + [line])
  {
  }

  lemma GroupedBody(hunk: seq<Line>, removes: seq<Line>, adds: seq<Line>)
    requires Closed(hunk)
    requires AllTagged(adds, '+') && AllTagged(removes, '-')
    ensures Grouped(hunk + removes + adds)
  {
  }

  lemma BodySides(hunk: seq<Line>, removes: seq<Line>, adds: seq<Line>)
    requires AllTagged(adds, '+') && AllTagged(removes, '-')
    ensures LeftOf(hunk + removes + adds) == LeftOf(hunk) + LeftOf(removes)
    ensures RightOf(hunk + removes + adds) == RightOf(hunk) + RightOf(adds)
  {
    OneSided(adds, '+');
    OneSided(removes, '-');
    SidesJoin(hunk, removes);
    SidesJoin(hunk + removes, adds);
    NothingAdded(LeftOf(hunk + removes));
    NothingAdded(RightOf(hunk));
  }

  lemma BodyShape(hunk: seq<Line>, removes: seq<Line>, adds: seq<Line>, removes': seq<Line>, adds': seq<Line>,
                  tag: char)
    requires AllTagged(adds, '+') && AllTagged(removes, '-')
    requires AllTagged(adds', '+') && AllTagged(removes', '-')
    requires |removes'| + |adds'| > 0 && tag != ' '
    ensures ShapeOf(hunk + removes' + adds') == Reshaped(ShapeOf(hunk + removes + adds), tag)
  {
    assert hunk + removes + adds == hunk + (removes + adds) && hunk + removes' + adds' == hunk + (removes' + adds');
    ShapeOfInsertion(hunk, removes + adds, removes' + adds', tag);
  }

  lemma NothingAdded(lines: seq<string>)
    ensures lines + [] == lines
  {
  }

  // ----- CreateUnifiedDiff

  /** What is left of the edits turns what is left of one list into what is left of the other. */
  ghost predicate Rest(left: seq<string>, right: seq<string>, edits: seq<EditType>, l: nat, r: nat, e: nat) {
    l <= |left| && r <= |right| && e <= |edits| && IsScript(left[l..], right[r..], edits[e..])
  }

  lemma RestStep(left: seq<string>, right: seq<string>, edits: seq<EditType>, l: nat, r: nat, e: nat)
    requires Rest(left, right, edits, l, r, e) && e < |edits|
    ensures (edits[e].Add? || l < |left|) && (edits[e].Remove? || r < |right|)
    ensures edits[e].Match? ==> left[l] == right[r]
    ensures Rest(left, right, edits, if edits[e].Add? then l else l + 1, if edits[e].Remove? then r else r + 1, e + 1)
  {
    assert edits[e..][1..] == edits[e + 1..];
    assert l < |left| ==> left[l..][1..] == left[l + 1..] && left[l..][0] == left[l];
    assert r < |right| ==> right[r..][1..] == right[r + 1..] && right[r..][0] == right[r];
  }

  /** The next edits, up to `context` of them, are matches. */
  ghost predicate QuietAhead(edits: seq<EditType>, e: nat, context: nat) {
    forall k :: e <= k < |edits| && k < e + context ==> edits[k] == Match
  }

  /** The printed hunks lead a reader of the left list to the same place, having put out the right list so far. */
  ghost predicate Printable(left: seq<string>, right: seq<string>, hunks: seq<Printed>, l: nat, r: nat) {
    l <= |left| && r <= |right| && ApplyHunks(left, hunks) == Some((l, right[..r]))
  }

  lemma PrintOne(left: seq<string>, right: seq<string>, hunks: seq<Printed>, h: Printed,
                 lc: nat, rc: nat, gap: nat, l: nat, r: nat)
    requires Printable(left, right, hunks, lc, rc)
    requires lc + gap <= l <= |left| && rc + gap <= r <= |right| && left[lc..lc + gap] == right[rc..rc + gap]
    requires LeftOf(h.lines) == left[lc + gap..l] && RightOf(h.lines) == right[rc + gap..r]
    requires h.header.left.Some? || h.header.right.Some?
    requires h.header.left.Some? ==> h.header.left.value == (lc + gap + 1, |LeftOf(h.lines)|)
    requires h.header.right.Some? ==> h.header.right.value == (rc + gap + 1, |RightOf(h.lines)|)
    ensures Printable(left, right, hunks + [h], l, r)
  {
    assert (hunks + [h])[..|hunks|] == hunks;
    assert ApplyHunks(left, hunks + [h]) == ApplyWith(left, hunks, h);
    Spliced(right, left[lc..lc + gap], rc, rc + gap, r);
  }

  lemma Spliced(s: seq<string>, middle: seq<string>, a: nat, b: nat, c: nat)
    requires a <= b <= c <= |s| && middle == s[a..b]
    ensures s[..a] + middle + s[b..c] == s[..c]
  {
    assert s[..a] + s[a..b] == s[..b];
  }

  predicate AllClean(lines: seq<string>) {
    forall k :: 0 <= k < |lines| ==> Clean(lines[k])
  }

  /** What a reader of the text makes of the left list. */
  function Patched(left: seq<string>, text: string): Option<seq<string>> {
    match ReadText(text)
    case None => None
    case Some(hunks) => Patch(left, hunks)
  }

  /** What is removed is in the left list, what is added in the right one, and what is common in both. */
  ghost predicate FromSides(lines: seq<Line>, left: seq<string>, right: seq<string>) {
    forall k :: 0 <= k < |lines| ==>
      && (lines[k].tag == '-' || lines[k].tag == ' ' ==> lines[k].text in left)
      && (lines[k].tag == '+' || lines[k].tag == ' ' ==> lines[k].text in right)
  }

  /** The hunk can be read back from its text, if the two lists can. */
  ghost predicate Readable(h: Printed, left: seq<string>, right: seq<string>) {
    && WellFormed(h) && FromSides(h.lines, left, right)
    && (AllClean(left) && AllClean(right) ==> CleanHunk(h))
  }

  /** Lists of lines come back from the text, which says of the left list how to make it the right one. */
  method CreateUnifiedDiff(left: seq<string>, right: seq<string>, context: nat)
    returns (text: string, ghost hunks: seq<Printed>)
    ensures text == AllText(hunks)
    ensures AllClean(left) && AllClean(right) ==> (Patched(left, text) == Some(right) <==> context > 0 || left == right)
    ensures ReadText(text) == Some(hunks) <==> forall k :: 0 <= k < |hunks| ==> CleanHunk(hunks[k])
    ensures Patch(left, hunks) == Some(right) <==> context > 0 || left == right
    ensures context == 0 || left == right ==> hunks == []
    ensures forall h, k :: h in hunks && 0 < k < |h.lines| && h.lines[k].tag == '-' ==> h.lines[k - 1].tag != '+'
    ensures forall k :: 0 <= k < |hunks| ==> Framed(hunks[k], context, k == 0, k == |hunks| - 1, |left|, |right|)
    ensures forall h, line :: h in hunks && line in h.lines ==>
      && (line.tag == '-' || line.tag == ' ' ==> line.text in left)
      && (line.tag == '+' || line.tag == ' ' ==> line.text in right)
  {
    text, hunks := WriteHunks(left, right, context);
    ReadsBackIffClean(hunks);
  }

  /** Every hunk so far is grouped, readable and framed; the last one may end the input only if `done`. */
  ghost predicate Written(left: seq<string>, right: seq<string>, hunks: seq<Printed>, context: nat, done: bool) {
    forall k :: 0 <= k < |hunks| ==>
      && Grouped(hunks[k].lines) && Readable(hunks[k], left, right)
      && Framed(hunks[k], context, k == 0, k == |hunks| - 1 && done, |left|, |right|)
  }

  lemma OneMoreWritten(left: seq<string>, right: seq<string>, hunks: seq<Printed>, h: Printed, context: nat, done: bool)
    requires Written(left, right, hunks, context, false) && Grouped(h.lines) && Readable(h, left, right)
    requires Framed(h, context, hunks == [], done, |left|, |right|)
    ensures Written(left, right, hunks + [h], context, done)
  {
  }

  method WriteHunks(left: seq<string>, right: seq<string>, context: nat)
    returns (text: string, ghost hunks: seq<Printed>)
    ensures text == AllText(hunks)
    ensures Patch(left, hunks) == Some(right) <==> context > 0 || left == right
    ensures context == 0 || left == right ==> hunks == []
    ensures Written(left, right, hunks, context, true)
  {
    var edits := EditsBetween(left, right);
    var l: nat, r: nat, e: nat := 0, 0, 0;
    text, hunks := "", [];
    while e < |edits|
      invariant text == AllText(hunks) && Between(left, right, edits, hunks, l, r, e, context)
      invariant Written(left, right, hunks, context, e == |edits|)
      decreases |edits| - e
    {
      ghost var lc, rc, ec := l, r, e;
      l, r, e := SkipMatches(left, right, edits, l, r, e);
      ghost var next;
      var hunk, l', r', e';
      hunk, l', r', e', next := NextHunk(left, right, edits, hunks, lc, rc, ec, l, r, e, context);
      if !hunk.HasEdits() {
        NothingMore(left, right, edits, hunks, lc, rc, l, r, e, context);
        return;
      }
      var more := hunk.PrintTo();
      AllTextSnoc(hunks, next);
      OneMoreWritten(left, right, hunks, next, context, e' == |edits|);
      text, hunks := text + more, hunks + [next];
      l, r, e := l', r', e';
    }
    NothingMore(left, right, edits, hunks, l, r, l, r, e, context);
  }

  method EditsBetween(left: seq<string>, right: seq<string>) returns (edits: seq<EditType>)
    ensures Rest(left, right, edits, 0, 0, 0) && (left == right ==> QuietAhead(edits, 0, |edits|))
  {
    edits := CalculateStringEdits(left, right);
    assert left[0..] == left && right[0..] == right && edits[0..] == edits;
  }

  /**
    The context asked for on both ends of the hunk, unless its input starts or ends there, and less than twice
    as much between two edits: farther ones belong to different hunks.
   */
  ghost predicate Framed(h: Printed, context: nat, first: bool, last: bool, left: nat, right: nat) {
    var s := ShapeOf(h.lines);
    && s.edits && s.head <= context && s.tail <= context && s.gap < 2 * context
    && (s.head < context ==> first && StartsAt(h.header.left, 1) && StartsAt(h.header.right, 1))
    && (s.tail < context ==> last && EndsAt(h.header.left, left) && EndsAt(h.header.right, right))
  }

  /** In terms of the lines: at most as much context as was asked for in front of the first edit and behind the last
      one, less only where a list starts or ends, and less than twice as much between edits. */
  lemma FramedMeans(h: Printed, context: nat, first: bool, last: bool, left: nat, right: nat)
    requires Framed(h, context, first, last, left, right)
    ensures exists head: nat ::
      && head < |h.lines| && h.lines[head].tag != ' ' && (forall k :: 0 <= k < head ==> h.lines[k].tag == ' ')
      && head <= context
      && (head < context ==>
        && first && (h.header.left.Some? ==> h.header.left.value.0 == 1)
        && (h.header.right.Some? ==> h.header.right.value.0 == 1))
    ensures exists end: nat ::
      && end < |h.lines| && h.lines[end].tag != ' ' && (forall k :: end < k < |h.lines| ==> h.lines[k].tag == ' ')
      && |h.lines| - 1 - end <= context
      && (|h.lines| - 1 - end < context ==>
        && last && (h.header.left.Some? ==> h.header.left.value.0 + h.header.left.value.1 == left + 1)
        && (h.header.right.Some? ==> h.header.right.value.0 + h.header.right.value.1 == right + 1))
    ensures forall a, b ::
      && 0 <= a < b < |h.lines| && h.lines[a].tag != ' ' && h.lines[b].tag != ' '
      && (forall k :: a < k < b ==> h.lines[k].tag == ' ')
      ==> b - a - 1 < 2 * context
  {
    ShapeMeans(h.lines);
    var s := ShapeOf(h.lines);
    var end := |h.lines| - 1 - s.tail;
    assert h.lines[s.head].tag != ' ' && h.lines[end].tag != ' ';
    forall a, b |
      && 0 <= a < b < |h.lines| && h.lines[a].tag != ' ' && h.lines[b].tag != ' '
      && (forall k :: a < k < b ==> h.lines[k].tag == ' ')
      ensures b - a - 1 < 2 * context
    {
      assert Neighbours(h.lines, a, b);
    }
  }

  ghost predicate StartsAt(side: Option<(nat, nat)>, line: nat) {
    side.Some? ==> side.value.0 == line
  }

  ghost predicate EndsAt(side: Option<(nat, nat)>, line: nat) {
    side.Some? ==> side.value.0 + side.value.1 == line + 1
  }

  /** What holds between two hunks; `context` matches lie behind the last one and at least as many ahead. */
  ghost predicate Between(left: seq<string>, right: seq<string>, edits: seq<EditType>, hunks: seq<Printed>,
                          l: nat, r: nat, e: nat, context: nat) {
    && Rest(left, right, edits, l, r, e) && Printable(left, right, hunks, l, r)
    && (hunks == [] ==> l == r == 0)
    && (hunks != [] ==> context > 0 && left != right)
    && (hunks != [] && e < |edits| ==> context <= l && context <= r && QuietAhead(edits, e, context))
    && (left == right ==> QuietAhead(edits, 0, |edits|))
  }

  /** Only matches were skipped since the last hunk. */
  ghost predicate Skipped(left: seq<string>, right: seq<string>, edits: seq<EditType>,
                          lc: nat, rc: nat, ec: nat, l: nat, r: nat, e: nat) {
    && Rest(left, right, edits, l, r, e)
    && ec <= e && l == lc + (e - ec) && r == rc + (e - ec) && left[lc..l] == right[rc..r]
    && (forall k :: ec <= k < e ==> edits[k] == Match)
    && (e < |edits| ==> edits[e] != Match)
  }

  /** The next hunk, with the indices behind it; it is the last if it has no edits. */
  method NextHunk(left: seq<string>, right: seq<string>, edits: seq<EditType>, ghost hunks: seq<Printed>,
                  ghost lc: nat, ghost rc: nat, ghost ec: nat, l0: nat, r0: nat, e0: nat, context: nat)
    returns (hunk: Hunk, l: nat, r: nat, e: nat, ghost next: Printed)
    requires Between(left, right, edits, hunks, lc, rc, ec, context) && ec < |edits|
    requires Skipped(left, right, edits, lc, rc, ec, l0, r0, e0)
    ensures fresh(hunk) && hunk.Valid() && next == hunk.Said()
    ensures hunk.HasEdits() <==> e0 < |edits| && context > 0
    ensures hunk.HasEdits() ==> e0 < e && Grouped(next.lines) && Readable(next, left, right)
    ensures hunk.HasEdits() ==> Between(left, right, edits, hunks + [next], l, r, e, context)
    ensures hunk.HasEdits() ==> Framed(next, context, hunks == [], e == |edits|, |left|, |right|)
  {
    ghost var prefix;
    hunk, l, r, e, prefix := BuildHunk(left, right, edits, l0, r0, e0, context);
    next := hunk.Said();
    if hunk.HasEdits() {
      hunk.SaidCovers();
      HunkDone(left, right, edits, hunks, next, hunk.leftSide, hunk.rightSide,
               lc, rc, ec, l0, r0, e0, prefix, l, r, e, context);
    }
  }

  lemma HunkDone(left: seq<string>, right: seq<string>, edits: seq<EditType>, hunks: seq<Printed>, h: Printed,
                 leftLines: seq<string>, rightLines: seq<string>,
                 lc: nat, rc: nat, ec: nat, l0: nat, r0: nat, e0: nat, prefix: nat, l: nat, r: nat, e: nat,
                 context: nat)
    requires Between(left, right, edits, hunks, lc, rc, ec, context) && ec < |edits|
    requires Skipped(left, right, edits, lc, rc, ec, l0, r0, e0) && e0 < |edits| && context > 0
    requires prefix == (if l0 < context then l0 else context) && prefix <= r0
    requires Rest(left, right, edits, l, r, e) && l0 <= l && r0 <= r
    requires leftLines == left[l0 - prefix..l0] + left[l0..l] && rightLines == left[l0 - prefix..l0] + right[r0..r]
    requires Covers(h, leftLines, rightLines, l0 - prefix + 1, r0 - prefix + 1)
    requires e < |edits| ==> context <= l && context <= r && QuietAhead(edits, e, context)
    requires Framing(ShapeOf(h.lines), prefix, context, e < |edits|)
    ensures Between(left, right, edits, hunks + [h], l, r, e, context)
    ensures Readable(h, left, right) && Framed(h, context, hunks == [], e == |edits|, |left|, |right|)
  {
    assert prefix <= l0 - lc;
    HunkFits(left, right, edits, hunks, h, lc, rc, ec, l0, r0, e0, prefix, l, r);
    HunkReadable(left, right, h, lc, rc, l0, r0, prefix, l, r);
    HunkFramed(left, right, edits, h, leftLines, rightLines, l0, r0, prefix, l, r, e, context, hunks == []);
  }

  lemma HunkReadable(left: seq<string>, right: seq<string>, h: Printed, lc: nat, rc: nat, l0: nat, r0: nat,
                     prefix: nat, l: nat, r: nat)
    requires lc <= l0 <= l <= |left| && rc <= r0 <= r <= |right| && left[lc..l0] == right[rc..r0] && prefix <= l0 - lc
    requires WellFormed(h) && LeftOf(h.lines) == left[l0 - prefix..l0] + left[l0..l]
    requires RightOf(h.lines) == left[l0 - prefix..l0] + right[r0..r]
    ensures Readable(h, left, right)
  {
    SamePrefix(left, right, lc, rc, l0, r0, prefix);
    CleanSlices(left, right, h, l0 - prefix, l0, l, r0, r);
  }

  lemma HunkFramed(left: seq<string>, right: seq<string>, edits: seq<EditType>, h: Printed, leftLines: seq<string>,
                   rightLines: seq<string>, l0: nat, r0: nat, prefix: nat, l: nat, r: nat, e: nat, context: nat,
                   first: bool)
    requires Rest(left, right, edits, l, r, e) && prefix <= l0 <= l && prefix <= r0 <= r
    requires |leftLines| == prefix + (l - l0) && |rightLines| == prefix + (r - r0)
    requires Covers(h, leftLines, rightLines, l0 - prefix + 1, r0 - prefix + 1)
    requires Framing(ShapeOf(h.lines), prefix, context, e < |edits|) && prefix <= context
    requires prefix < context ==> first && l0 == prefix && r0 == prefix
    ensures Framed(h, context, first, e == |edits|, |left|, |right|)
  {
    assert e == |edits| ==> edits[e..] == [];
  }

  /** The context in front of a hunk is the same on both sides. */
  lemma SamePrefix(left: seq<string>, right: seq<string>, lc: nat, rc: nat, l: nat, r: nat, prefix: nat)
    requires lc <= l <= |left| && rc <= r <= |right| && left[lc..l] == right[rc..r] && prefix <= l - lc
    ensures left[l - prefix..l] == right[r - prefix..r]
  {
    CutSlice(left, lc, l - prefix, l);
    CutSlice(right, rc, r - prefix, r);
  }

  /** A printed hunk holds these lines on either side, and its fields say so. */
  ghost predicate Covers(h: Printed, left: seq<string>, right: seq<string>, leftStart: nat, rightStart: nat) {
    && LeftOf(h.lines) == left && RightOf(h.lines) == right
    && WellFormed(h)
    && (h.header.left.Some? ==> h.header.left.value == (leftStart, |left|))
    && (h.header.right.Some? ==> h.header.right.value == (rightStart, |right|))
  }

  /** A hunk with its context in front and the edits up to its end, with the indices behind it. */
  method BuildHunk(left: seq<string>, right: seq<string>, edits: seq<EditType>, l0: nat, r0: nat, e0: nat, context: nat)
    returns (hunk: Hunk, l: nat, r: nat, e: nat, ghost prefix: nat)
    requires Rest(left, right, edits, l0, r0, e0) && (e0 < |edits| ==> edits[e0] != Match)
    requires l0 <= r0 || context <= r0
    ensures fresh(hunk) && hunk.Valid() && prefix == if l0 < context then l0 else context
    ensures hunk.HasEdits() <==> e0 < |edits| && context > 0
    ensures hunk.HasEdits() ==> e0 < e && Framing(hunk.shape, prefix, context, e < |edits|)
    ensures Rest(left, right, edits, l, r, e) && l0 <= l && r0 <= r
    ensures hunk.leftStart == l0 - prefix + 1 && hunk.rightStart == r0 - prefix + 1
    ensures hunk.leftSide == left[l0 - prefix..l0] + left[l0..l]
    ensures hunk.rightSide == left[l0 - prefix..l0] + right[r0..r]
    ensures e < |edits| ==> context <= l && context <= r && QuietAhead(edits, e, context)
  {
    var start;
    hunk, start := StartHunk(left, l0, r0, context);
    prefix := start;
    l, r, e := PushEdits(hunk, left, right, edits, l0, r0, e0, context, start);
  }

  /** A hunk with its context in front. */
  method StartHunk(left: seq<string>, l: nat, r: nat, context: nat) returns (hunk: Hunk, start: nat)
    requires l <= |left| && (l <= r || context <= r)
    ensures fresh(hunk) && hunk.Valid() && start == if l < context then l else context
    ensures hunk.leftStart == l - start + 1 && hunk.rightStart == r - start + 1
    ensures hunk.leftSide == left[l - start..l] == hunk.rightSide && hunk.shape == Shape(start, start, 0, false)
  {
    start := if l < context then l else context;
    hunk := new Hunk(l - start + 1, r - start + 1);
    PushPrefix(hunk, left, l, start);
  }

  lemma {:induction false} SidesHold(lines: seq<Line>)
    requires Tagged(lines)
    ensures FromSides(lines, LeftOf(lines), RightOf(lines))
  {
    if lines != [] {
      var front, last := lines[..|lines| - 1], lines[|lines| - 1];
      SidesOfSnoc(front, last);
      SidesHold(front);
      assert lines == front + [last];
      assert last.tag != '+' ==> OnLeft(last)[0] == last.text;
      assert last.tag != '-' ==> OnRight(last)[0] == last.text;
    }
  }

  /** Every line of a hunk is on one side at least. */
  lemma {:induction false} CleanSides(lines: seq<Line>)
    requires Tagged(lines) && AllClean(LeftOf(lines)) && AllClean(RightOf(lines))
    ensures forall k :: 0 <= k < |lines| ==> Clean(lines[k].text)
  {
    if lines != [] {
      var front, last := lines[..|lines| - 1], lines[|lines| - 1];
      SidesOfSnoc(front, last);
      assert lines == front + [last];
      CleanParts(LeftOf(front), OnLeft(last));
      CleanParts(RightOf(front), OnRight(last));
      CleanSides(front);
      assert Clean(last.text) by {
        if last.tag != '+' {
          assert OnLeft(last)[0] == last.text;
        } else {
          assert OnRight(last)[0] == last.text;
        }
      }
    }
  }

  lemma CleanParts(a: seq<string>, b: seq<string>)
    requires AllClean(a + b)
    ensures AllClean(a) && AllClean(b)
  {
    forall k | 0 <= k < |a| ensures Clean(a[k]) {
      assert (a + b)[k] == a[k];
    }
    forall k | 0 <= k < |b| ensures Clean(b[k]) {
      assert (a + b)[|a| + k] == b[k];
    }
  }

  lemma SlicesWithin(left: seq<string>, right: seq<string>, lines: seq<Line>, a: nat, b: nat, l: nat, r0: nat, r: nat)
    requires a <= b <= l <= |left| && b - a <= r0 <= r <= |right| && left[a..b] == right[r0 - (b - a)..r0]
    requires FromSides(lines, left[a..b] + left[b..l], left[a..b] + right[r0..r])
    ensures FromSides(lines, left, right)
  {
  }

  lemma CleanSlices(left: seq<string>, right: seq<string>, h: Printed, a: nat, b: nat, l: nat, r0: nat, r: nat)
    requires WellFormed(h) && a <= b <= l <= |left| && b - a <= r0 <= r <= |right|
    requires left[a..b] == right[r0 - (b - a)..r0]
    requires LeftOf(h.lines) == left[a..b] + left[b..l] && RightOf(h.lines) == left[a..b] + right[r0..r]
    ensures Readable(h, left, right)
  {
    SidesHold(h.lines);
    SlicesWithin(left, right, h.lines, a, b, l, r0, r);
    if AllClean(left) && AllClean(right) {
      CleanSides(h.lines);
    }
  }

  lemma HunkFits(left: seq<string>, right: seq<string>, edits: seq<EditType>, hunks: seq<Printed>, h: Printed,
                 lc: nat, rc: nat, ec: nat, l0: nat, r0: nat, e0: nat, prefix: nat, l: nat, r: nat)
    requires Printable(left, right, hunks, lc, rc) && Skipped(left, right, edits, lc, rc, ec, l0, r0, e0)
    requires prefix <= l0 - lc && l0 <= l <= |left| && r0 <= r <= |right|
    requires Covers(h, left[l0 - prefix..l0] + left[l0..l], left[l0 - prefix..l0] + right[r0..r],
                    l0 - prefix + 1, r0 - prefix + 1)
    ensures Printable(left, right, hunks + [h], l, r)
  {
    HunkSlices(left, right, lc, rc, l0, r0, prefix, l, r);
    PrintOne(left, right, hunks, h, lc, rc, l0 - prefix - lc, l, r);
  }

  lemma HunkSlices(left: seq<string>, right: seq<string>, lc: nat, rc: nat, l0: nat, r0: nat, prefix: nat, l: nat,
                   r: nat)
    requires lc <= l0 <= l <= |left| && rc <= r0 <= r <= |right| && l0 - lc == r0 - rc && prefix <= l0 - lc
    requires left[lc..l0] == right[rc..r0]
    ensures left[lc..l0 - prefix] == right[rc..r0 - prefix]
    ensures left[l0 - prefix..l0] + left[l0..l] == left[l0 - prefix..l]
    ensures left[l0 - prefix..l0] + right[r0..r] == right[r0 - prefix..r]
  {
    CutSlice(left, lc, l0 - prefix, l0);
    CutSlice(right, rc, r0 - prefix, r0);
    JoinSlices(left, l0 - prefix, l0, l);
    JoinSlices(right, r0 - prefix, r0, r);
  }

  lemma CutSlice(s: seq<string>, a: nat, b: nat, c: nat)
    requires a <= b <= c <= |s|
    ensures s[a..c][..b - a] == s[a..b] && s[a..c][b - a..] == s[b..c]
  {
  }

  lemma JoinSlices(s: seq<string>, a: nat, b: nat, c: nat)
    requires a <= b <= c <= |s|
    ensures s[a..b] + s[b..c] == s[a..c]
  {
  }

  /** No further hunk: the rest is all matches, or no context was asked for and there is no hunk at all. */
  lemma NothingMore(left: seq<string>, right: seq<string>, edits: seq<EditType>, hunks: seq<Printed>,
                    lc: nat, rc: nat, l: nat, r: nat, e: nat, context: nat)
    requires Printable(left, right, hunks, lc, rc) && Rest(left, right, edits, l, r, e)
    requires lc <= l && rc <= r && left[lc..l] == right[rc..r]
    requires hunks == [] ==> lc == rc == 0
    requires hunks != [] ==> context > 0
    requires e == |edits| || (context == 0 && hunks == [])
    ensures Patch(left, hunks) == Some(right) <==> context > 0 || left == right
  {
    assert hunks == [] ==> left[0..] == left && right[..0] == [];
    assert [] + left == left;
    if e == |edits| {
      assert edits[e..] == [];
      assert left[l..] == [] && right[r..] == [];
      assert left[lc..] == left[lc..l] && right[rc..] == right[rc..r];
      assert right == right[..rc] + right[rc..];
    }
  }

  /** Finds the first edit. */
  method SkipMatches(left: seq<string>, right: seq<string>, edits: seq<EditType>, l0: nat, r0: nat, e0: nat)
    returns (l: nat, r: nat, e: nat)
    requires Rest(left, right, edits, l0, r0, e0)
    ensures Skipped(left, right, edits, l0, r0, e0, l, r, e)
  {
    l, r, e := l0, r0, e0;
    while e < |edits| && edits[e] == Match
      invariant Rest(left, right, edits, l, r, e) && e0 <= e && l == l0 + (e - e0) && r == r0 + (e - e0)
      invariant left[l0..l] == right[r0..r]
      invariant forall k :: e0 <= k < e ==> edits[k] == Match
    {
      RestStep(left, right, edits, l, r, e);
      SliceGrows(left, l0, l);
      SliceGrows(right, r0, r);
      l, r, e := l + 1, r + 1, e + 1;
    }
  }

  method PushPrefix(hunk: Hunk, left: seq<string>, l: nat, prefix: nat)
    requires hunk.Valid() && hunk.leftSide == hunk.rightSide == [] && hunk.shape == Shape(0, 0, 0, false)
    requires prefix <= l <= |left|
    modifies hunk
    ensures hunk.Valid()
    ensures hunk.leftSide == left[l - prefix..l] == hunk.rightSide
    ensures hunk.shape == Shape(prefix, prefix, 0, false)
  {
    var i := prefix;
    ghost var k := l - prefix;
    while i > 0
      invariant 0 <= i <= prefix
      invariant hunk.Valid()
      invariant k == l - i && hunk.leftSide == left[l - prefix..k] == hunk.rightSide
      invariant hunk.shape == Shape(prefix - i, prefix - i, 0, false)
    {
      CommonGrows(left, l - prefix, k, left[l - i]);
      hunk.PushLine(' ', left[l - i]);
      i, k := i - 1, k + 1;
    }
  }

  /** Iterates over the edits until there is enough context behind the last one and the next is far away. */
  method PushEdits(hunk: Hunk, left: seq<string>, right: seq<string>, edits: seq<EditType>,
                   l0: nat, r0: nat, e0: nat, context: nat, ghost prefix: nat)
    returns (l: nat, r: nat, e: nat)
    requires hunk.shape == Shape(prefix, prefix, 0, false)
    requires hunk.Valid() && Rest(left, right, edits, l0, r0, e0)
    requires e0 < |edits| ==> edits[e0] != Match
    modifies hunk
    ensures hunk.Valid() && Rest(left, right, edits, l, r, e) && l0 <= l && r0 <= r && e0 <= e
    ensures hunk.leftSide == old(hunk.leftSide) + left[l0..l]
    ensures hunk.rightSide == old(hunk.rightSide) + right[r0..r]
    ensures hunk.HasEdits() <==> e0 < |edits| && context > 0
    ensures hunk.HasEdits() <==> e0 < e
    ensures e < |edits| ==> context <= l && context <= r && QuietAhead(edits, e, context)
    ensures e0 < e ==> Framing(hunk.shape, prefix, context, e < |edits|)
  {
    l, r, e := l0, r0, e0;
    var suffix: nat := 0;
    ghost var close: nat, leftFront, rightFront := 0, hunk.leftSide, hunk.rightSide;
    while e < |edits|
      invariant hunk.Valid() && Rest(left, right, edits, l, r, e) && l0 <= l && r0 <= r && e0 <= e
      invariant hunk.leftSide == leftFront + left[l0..l] && hunk.rightSide == rightFront + right[r0..r]
      invariant hunk.HasEdits() <==> e0 < e
      invariant suffix <= l && suffix <= r
      invariant e == e0 ==> suffix == 0
      invariant e0 < e ==> context > 0
      invariant Growing(hunk.shape, prefix, context, suffix, e0 < e)
      invariant suffix > context ==> Close(edits, e, suffix, close, context)
    {
      var enough;
      enough, close := Enough(edits, e, suffix, context, close);
      if enough {
        break;
      }
      Grows(hunk.shape, edits, prefix, context, suffix, e, e0 < e, close);
      suffix, l, r := PassNext(hunk, left, right, edits, l, r, e, suffix, l0, r0, leftFront, rightFront);
      e := e + 1;
    }
  }

  /** An edit lies so close ahead that the common lines before it stay below twice the context. */
  ghost predicate Close(edits: seq<EditType>, e: nat, suffix: nat, close: nat, context: nat) {
    e <= close < |edits| && edits[close] != Match && close - e + suffix < 2 * context
  }

  /** The shape of a hunk while its edits are pushed: with `suffix` common lines behind the last edit, if there is
      one. */
  ghost predicate Growing(s: Shape, prefix: nat, context: nat, suffix: nat, edits: bool) {
    && s.edits == edits && s.head == prefix
    && (if edits then s.tail == suffix && (s.gap == 0 || s.gap < 2 * context) else s == Shape(prefix, prefix, 0, false))
  }

  /** The shape of a finished hunk, with a full context behind it unless the input is over. */
  ghost predicate Framing(s: Shape, prefix: nat, context: nat, more: bool) {
    && s.edits && s.head == prefix && s.gap < 2 * context
    && s.tail <= context && (more ==> s.tail == context)
  }

  lemma CommonGrows(s: seq<string>, a: nat, b: nat, line: string)
    requires a <= b < |s| && line == s[b]
    ensures s[a..b] + OnLeft(Line(' ', line)) == s[a..b + 1] == s[a..b] + OnRight(Line(' ', line))
  {
  }

  lemma SliceGrows(s: seq<string>, a: nat, b: nat)
    requires a <= b < |s|
    ensures s[a..b + 1] == s[a..b] + [s[b]]
  {
  }

  lemma SlicesJoin(front: seq<string>, s: seq<string>, a: nat, b: nat, c: nat)
    requires a <= b <= c <= |s|
    ensures (front + s[a..b]) + s[b..c] == front + s[a..c]
  {
    JoinSlices(s, a, b, c);
  }

  /** Whether the hunk ends here: a full context lies behind the last edit, and the next one is not very close. */
  method Enough(edits: seq<EditType>, e: nat, suffix: nat, context: nat, ghost close: nat)
    returns (enough: bool, ghost close': nat)
    requires e < |edits| && (suffix > context ==> Close(edits, e, suffix, close, context))
    ensures enough ==> suffix == context && QuietAhead(edits, e, context)
    ensures !enough && suffix >= context ==> context > 0 && Close(edits, e, suffix, close', context)
  {
    enough, close' := false, close;
    if suffix >= context {
      var next := NextEdit(edits, e);
      if next == |edits| || next - e >= context {
        return true, close;
      }
      close' := next;
    }
  }

  lemma Grows(s: Shape, edits: seq<EditType>, prefix: nat, context: nat, suffix: nat, e: nat, some: bool, close: nat)
    requires e < |edits| && Growing(s, prefix, context, suffix, some) && (some || edits[e] != Match)
    requires suffix >= context ==> context > 0 && Close(edits, e, suffix, close, context)
    ensures var after := if edits[e] == Match then suffix + 1 else 0;
      && Growing(Reshaped(s, if edits[e] == Match then ' ' else '-'), prefix, context, after, true)
      && (after > context ==> Close(edits, e + 1, after, close, context))
  {
  }

  /** The position of the next edit that is not a match. */
  method NextEdit(edits: seq<EditType>, e: nat) returns (next: nat)
    requires e <= |edits|
    ensures e <= next <= |edits| && forall k :: e <= k < next ==> edits[k] == Match
    ensures next < |edits| ==> edits[next] != Match
  {
    next := e;
    while next < |edits| && edits[next] == Match
      invariant e <= next <= |edits| && forall k :: e <= k < next ==> edits[k] == Match
    {
      next := next + 1;
    }
  }

  /** The slices pushed so far, behind what was in the hunk before, grow by one edit. */
  method PassNext(hunk: Hunk, left: seq<string>, right: seq<string>, edits: seq<EditType>, l: nat, r: nat, e: nat,
                  suffix: nat,
                  ghost l0: nat, ghost r0: nat, ghost leftFront: seq<string>, ghost rightFront: seq<string>)
    returns (suffix': nat, l': nat, r': nat)
    requires hunk.Valid() && Rest(left, right, edits, l, r, e) && e < |edits| && l0 <= l && r0 <= r
    requires hunk.leftSide == leftFront + left[l0..l] && hunk.rightSide == rightFront + right[r0..r]
    modifies hunk
    ensures edits[e] == Match ==> l < l' && r < r'
    ensures hunk.Valid() && Rest(left, right, edits, l', r', e + 1) && l <= l' && r <= r'
    ensures hunk.leftSide == leftFront + left[l0..l'] && hunk.rightSide == rightFront + right[r0..r']
    ensures hunk.HasEdits() <==> old(hunk.HasEdits()) || edits[e] != Match
    ensures suffix' == if edits[e] == Match then suffix + 1 else 0
    ensures hunk.shape == Reshaped(old(hunk.shape), if edits[e] == Match then ' ' else '-')
  {
    suffix', l', r' := PassEdit(hunk, left, right, edits, l, r, e, suffix);
    SlicesJoin(leftFront, left, l0, l, l');
    SlicesJoin(rightFront, right, r0, r, r');
  }

  /** Pushes the lines of one edit and advances past them. */
  method PassEdit(hunk: Hunk, left: seq<string>, right: seq<string>, edits: seq<EditType>, l: nat, r: nat, e: nat,
                  suffix: nat)
    returns (suffix': nat, l': nat, r': nat)
    requires hunk.Valid() && Rest(left, right, edits, l, r, e) && e < |edits|
    modifies hunk
    ensures edits[e] == Match ==> l < l' && r < r'
    ensures hunk.Valid() && Rest(left, right, edits, l', r', e + 1) && l <= l' && r <= r'
    ensures hunk.leftSide == old(hunk.leftSide) + left[l..l']
    ensures hunk.rightSide == old(hunk.rightSide) + right[r..r']
    ensures hunk.HasEdits() <==> old(hunk.HasEdits()) || edits[e] != Match
    ensures suffix' == if edits[e] == Match then suffix + 1 else 0
    ensures hunk.shape == Reshaped(old(hunk.shape), if edits[e] == Match then ' ' else '-')
  {
    RestStep(left, right, edits, l, r, e);
    suffix' := PushEdit(hunk, left, right, edits[e], l, r, suffix);
    l', r' := if edits[e] != Add then l + 1 else l, if edits[e] != Remove then r + 1 else r;
    assert left[l..l'] == if edits[e] == Add then [] else [left[l]];
    assert right[r..r'] == if edits[e] == Remove then [] else [right[r]];
  }

  method PushEdit(hunk: Hunk, left: seq<string>, right: seq<string>, edit: EditType, l: nat, r: nat, suffix: nat)
    returns (suffix': nat)
    requires hunk.Valid() && (edit != Add ==> l < |left|) && (edit != Remove ==> r < |right|)
    requires edit == Match ==> left[l] == right[r]
    modifies hunk
    ensures hunk.Valid()
    ensures hunk.leftSide == old(hunk.leftSide) + if edit == Add then [] else [left[l]]
    ensures hunk.rightSide == old(hunk.rightSide) + if edit == Remove then [] else [right[r]]
    ensures hunk.HasEdits() <==> old(hunk.HasEdits()) || edit != Match
    ensures suffix' == if edit == Match then suffix + 1 else 0
    ensures hunk.shape == Reshaped(old(hunk.shape), if edit == Match then ' ' else '-')
  {
    suffix' := if edit == Match then suffix + 1 else 0;
    if edit == Match || edit == Remove || edit == Replace {
      hunk.PushLine(if edit == Match then ' ' else '-', left[l]);
    }
    if edit == Add || edit == Replace {
      hunk.PushLine('+', right[r]);
    }
  }
}
