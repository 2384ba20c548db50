/**
  The text of unified diffs: how hunks are written out, a reader for such text that is written independently, and when
  it reads back what was written.
 */
module DiffTexts {
  import opened Wrappers
  import opened CStrings

  datatype Line = Line(tag: char, text: string)

  /** Start and count on each side; a side is printed only if the hunk removes, respectively adds, something. */
  datatype Header = Header(left: Option<(nat, nat)>, right: Option<(nat, nat)>)

  datatype Printed = Printed(header: Header, lines: seq<Line>)

  const TAGS: set<char> := {' ', '-', '+'}

  // ----- writing

  /** A number as a stream writes it. */
  function Decimal(n: nat): string {
    (if n < 10 then "" else Decimal(n / 10)) + [(n % 10 + '0' as int) as char]
  }

  function SideText(sign: char, side: (nat, nat)): string {
    [sign] + Decimal(side.0) + "," + Decimal(side.1)
  }

  function HeaderText(h: Header): string {
    "@@ " + (if h.left.Some? then SideText('-', h.left.value) else "")
    + (if h.left.Some? && h.right.Some? then " " else "")
    + (if h.right.Some? then SideText('+', h.right.value) else "") + " @@"
  }

  /** Lines are handed on as C strings, so that a NUL ends them. */
  function LineText(line: Line): string { [line.tag] + Text(line.text) }

  function LineTexts(lines: seq<Line>): seq<string> {
    if lines == [] then [] else [LineText(lines[0])] + LineTexts(lines[1..])
  }

  function TextsOf(h: Printed): seq<string> { [HeaderText(h.header)] + LineTexts(h.lines) }

  function AllTexts(hunks: seq<Printed>): seq<string> {
    if hunks == [] then [] else TextsOf(hunks[0]) + AllTexts(hunks[1..])
  }

  /** Each line with its end. */
  function Ended(lines: seq<string>): string
    decreases |lines|, 0
  {
    if lines == [] then "" else EndedFrom(lines[0], lines[1..])
  }

  function EndedFrom(line: string, rest: seq<string>): string
    decreases |rest|, 1
  {
    line + "\n" + Ended(rest)
  }

  // ----- reading

  /** A number without leading zeros. */
  function ReadNumber(s: string): Option<nat> {
    if |s| > 1 && s[0] == '0' then None else ReadDigits(s)
  }

  function ReadDigits(s: string): Option<nat> {
    if s == "" then None
    else
      var last := s[|s| - 1];
      if !('0' <= last <= '9') then None
      else if |s| == 1 then Some(last as int - '0' as int)
      else
        match ReadDigits(s[..|s| - 1])
        case None => None
        case Some(n) => Some(10 * n + (last as int - '0' as int))
  }

  /** The pieces between separators. */
  function Split(s: string, sep: char): (pieces: seq<string>)
    ensures pieces != []
  {
    if s == "" then [""]
    else
      var rest := Split(s[1..], sep);
      if s[0] == sep then [""] + rest else [[s[0]] + rest[0]] + rest[1..]
  }

  function ReadSide(sign: char, word: string): Option<(nat, nat)> {
    if word == "" || word[0] != sign then None
    else
      var numbers := Split(word[1..], ',');
      if |numbers| != 2 then None
      else
        match (ReadNumber(numbers[0]), ReadNumber(numbers[1]))
        case (Some(start), Some(count)) => Some((start, count))
        case _ => None
  }

  function ReadHeader(line: string): Option<Header> {
    var words := Split(line, ' ');
    if |words| < 3 || words[0] != "@@" || words[|words| - 1] != "@@" then None
    else
      var left, right := ReadSide('-', words[1]), ReadSide('+', words[|words| - 2]);
      if |words| == 3 && (left.Some? || right.Some?) then Some(Header(left, right))
      else if |words| == 4 && left.Some? && right.Some? then Some(Header(left, right))
      else None
  }

  predicate IsBody(line: string) { line != "" && line[0] in TAGS }

  function BodyLength(lines: seq<string>): (n: nat)
    ensures n <= |lines| && forall k :: 0 <= k < n ==> IsBody(lines[k])
  {
    if lines == [] || !IsBody(lines[0]) then 0 else 1 + BodyLength(lines[1..])
  }

  function ReadLines(lines: seq<string>): (read: seq<Line>)
    requires forall k :: 0 <= k < |lines| ==> IsBody(lines[k])
    ensures |read| == |lines|
    ensures forall k :: 0 <= k < |lines| ==> IsBody(lines[k]) && read[k] == Line(lines[k][0], lines[k][1..])
  {
    if lines == [] then [] else assert IsBody(lines[0]); [Line(lines[0][0], lines[0][1..])] + ReadLines(lines[1..])
  }

  function ReadHunks(lines: seq<string>): Option<seq<Printed>>
    decreases |lines|, 0
  {
    if lines == [] then Some([])
    else
      match ReadHeader(lines[0])
      case None => None
      case Some(header) => ReadBlock(header, lines[1..])
  }

  function ReadBlock(header: Header, lines: seq<string>): Option<seq<Printed>>
    decreases |lines|, 1
  {
    var n := BodyLength(lines);
    match ReadHunks(lines[n..])
    case None => None
    case Some(more) => Some([Printed(header, ReadLines(lines[..n]))] + more)
  }

  /** The hunks in a text all of whose lines are ended. */
  function ReadText(text: string): Option<seq<Printed>> {
    var lines := Split(text, '\n');
    if lines[|lines| - 1] != "" then None else ReadHunks(lines[..|lines| - 1])
  }

  // ----- what was written is read back

  predicate Clean(text: string) { '\n' !in text && '\0' !in text }

  predicate Tagged(lines: seq<Line>) { forall k :: 0 <= k < |lines| ==> lines[k].tag in TAGS }

  /** The hunk has a side in its header, and its lines are tagged. */
  predicate WellFormed(h: Printed) {
    (h.header.left.Some? || h.header.right.Some?) && Tagged(h.lines)
  }

  predicate CleanHunk(h: Printed) {
    forall k :: 0 <= k < |h.lines| ==> Clean(h.lines[k].text)
  }

  /** A numeral starts with a zero for zero alone, and has one digit for the numbers below ten and no others. */
  lemma {:induction false} DecimalIsCanonical(n: nat)
    ensures Decimal(n) != "" && (Decimal(n)[0] == '0' <==> n == 0) && (|Decimal(n)| == 1 <==> n < 10)
    ensures Decimal(n)[|Decimal(n)| - 1] == "0123456789"[n % 10]
    ensures n >= 10 ==> Decimal(n)[..|Decimal(n)| - 1] == Decimal(n / 10)
  {
    if n >= 10 {
      DecimalIsCanonical(n / 10);
    }
  }

  lemma NumberReadsBack(n: nat)
    ensures ReadNumber(Decimal(n)) == Some(n) && forall c :: c in Decimal(n) ==> '0' <= c <= '9'
  {
    DecimalIsCanonical(n);
    DigitsReadBack(n);
  }

  lemma {:induction false} DigitsReadBack(n: nat)
    ensures ReadDigits(Decimal(n)) == Some(n) && forall c :: c in Decimal(n) ==> '0' <= c <= '9'
  {
    var last := (n % 10 + '0' as int) as char;
    if n < 10 {
      assert Decimal(n) == [last];
    } else {
      DigitsReadBack(n / 10);
      assert Decimal(n)[..|Decimal(n)| - 1] == Decimal(n / 10);
    }
  }

  /** No other numeral is read as the number. */
  lemma {:induction false} OneNumeral(s: string)
    requires ReadNumber(s).Some?
    ensures s == Decimal(ReadNumber(s).value)
  {
    var front, last := s[..|s| - 1], s[|s| - 1];
    var d := last as int - '0' as int;
    assert s == front + [last];
    if front != "" {
      assert front[0] == s[0];
      OneNumeral(front);
      DecimalIsCanonical(ReadDigits(front).value);
      assert ReadDigits(s).value / 10 == ReadDigits(front).value;
    }
  }

  lemma {:induction false} SplitAt(a: string, sep: char, b: string)
    requires sep !in a
    ensures Split(a + [sep] + b, sep) == [a] + Split(b, sep)
  {
    var s := a + [sep] + b;
    if a == "" {
      assert s[1..] == b;
    } else {
      assert s[0] == a[0] && s[1..] == a[1..] + [sep] + b;
      SplitAt(a[1..], sep, b);
      assert [a[0]] + a[1..] == a;
    }
  }

  lemma {:induction false} SplitWhole(a: string, sep: char)
    requires sep !in a
    ensures Split(a, sep) == [a]
  {
    if a != "" {
      SplitWhole(a[1..], sep);
      assert [a[0]] + a[1..] == a;
    }
  }

  lemma SideReadsBack(sign: char, side: (nat, nat))
    ensures ReadSide(sign, SideText(sign, side)) == Some(side)
    ensures forall c :: c in SideText(sign, side) ==> c == sign || c == ',' || '0' <= c <= '9'
  {
    NumberReadsBack(side.0);
    NumberReadsBack(side.1);
    NumbersReadBack(sign, Decimal(side.0), side.0, Decimal(side.1), side.1);
  }

  lemma NumbersReadBack(sign: char, a: string, m: nat, b: string, n: nat)
    requires (forall c :: c in a ==> '0' <= c <= '9') && (forall c :: c in b ==> '0' <= c <= '9')
    requires ReadNumber(a) == Some(m) && ReadNumber(b) == Some(n)
    ensures ReadSide(sign, [sign] + a + "," + b) == Some((m, n))
  {
    NumbersSplit(a, b);
    assert ([sign] + a + "," + b)[1..] == a + "," + b;
  }

  lemma NumbersSplit(a: string, b: string)
    requires (forall c :: c in a ==> '0' <= c <= '9') && (forall c :: c in b ==> '0' <= c <= '9')
    ensures Split(a + "," + b, ',') == [a, b]
  {
    SplitAt(a, ',', b);
    SplitWhole(b, ',');
  }

  lemma HeaderReadsBack(h: Header)
    requires h.left.Some? || h.right.Some?
    ensures ReadHeader(HeaderText(h)) == Some(h) && !IsBody(HeaderText(h)) && '\n' !in HeaderText(h)
  {
    if h.left.Some? && h.right.Some? {
      BothReadBack(h.left.value, h.right.value);
    } else if h.left.Some? {
      assert HeaderText(h) == "@@ " + SideText('-', h.left.value) + " @@";
      OneReadsBack('-', h.left.value, HeaderText(h));
    } else {
      assert HeaderText(h) == "@@ " + SideText('+', h.right.value) + " @@";
      OneReadsBack('+', h.right.value, HeaderText(h));
    }
  }

  lemma OneReadsBack(sign: char, side: (nat, nat), text: string)
    requires sign in {'-', '+'} && text == "@@ " + SideText(sign, side) + " @@"
    ensures Split(text, ' ') == ["@@", SideText(sign, side), "@@"] && '\n' !in text
    ensures ReadSide(sign, SideText(sign, side)) == Some(side)
    ensures ReadSide(if sign == '-' then '+' else '-', SideText(sign, side)) == None
  {
    SideReadsBack(sign, side);
    assert text == "@@" + [' '] + (SideText(sign, side) + [' '] + "@@");
    SplitAt("@@", ' ', SideText(sign, side) + [' '] + "@@");
    SplitAt(SideText(sign, side), ' ', "@@");
    SplitWhole("@@", ' ');
  }

  lemma BothReadBack(left: (nat, nat), right: (nat, nat))
    ensures var text := HeaderText(Header(Some(left), Some(right)));
      Split(text, ' ') == ["@@", SideText('-', left), SideText('+', right), "@@"] && '\n' !in text
    ensures ReadSide('-', SideText('-', left)) == Some(left) && ReadSide('+', SideText('+', right)) == Some(right)
  {
    var l, r := SideText('-', left), SideText('+', right);
    SideReadsBack('-', left);
    SideReadsBack('+', right);
    WordsSplit(l, r);
    assert HeaderText(Header(Some(left), Some(right))) == "@@ " + l + " " + r + " @@";
  }

  lemma WordsSplit(l: string, r: string)
    requires ' ' !in l && ' ' !in r
    ensures Split("@@ " + l + " " + r + " @@", ' ') == ["@@", l, r, "@@"]
  {
    assert "@@ " + l + " " + r + " @@" == "@@" + [' '] + (l + [' '] + (r + [' '] + "@@"));
    SplitAt("@@", ' ', l + [' '] + (r + [' '] + "@@"));
    SplitAt(l, ' ', r + [' '] + "@@");
    SplitAt(r, ' ', "@@");
    SplitWhole("@@", ' ');
  }

  lemma {:induction false} EndedJoin(a: seq<string>, b: seq<string>)
    ensures Ended(a + b) == Ended(a) + Ended(b)
  {
    if a == [] {
      assert a + b == b;
    } else {
      EndedJoin(a[1..], b);
      assert (a + b)[0] == a[0] && (a + b)[1..] == a[1..] + b;
    }
  }

  lemma {:induction false} LinesSplit(lines: seq<string>)
    requires forall k :: 0 <= k < |lines| ==> '\n' !in lines[k]
    ensures Split(Ended(lines), '\n') == lines + [""]
  {
    if lines != [] {
      LinesSplit(lines[1..]);
      SplitAt(lines[0], '\n', Ended(lines[1..]));
      assert [lines[0]] + (lines[1..] + [""]) == lines + [""];
    }
  }

  lemma {:induction false} LineTextsAt(lines: seq<Line>)
    ensures |LineTexts(lines)| == |lines|
    ensures forall k :: 0 <= k < |lines| ==> LineTexts(lines)[k] == LineText(lines[k])
  {
    if lines != [] {
      LineTextsAt(lines[1..]);
    }
  }

  lemma {:induction false} LineTextsSnoc(lines: seq<Line>, line: Line)
    ensures LineTexts(lines + [line]) == LineTexts(lines) + [LineText(line)]
  {
    LineTextsAt(lines + [line]);
    LineTextsAt(lines);
  }

  /** A body ends where the next header starts. */
  lemma {:induction false} BodyLengthIs(body: seq<string>, rest: seq<string>)
    requires forall k :: 0 <= k < |body| ==> IsBody(body[k])
    requires rest == [] || !IsBody(rest[0])
    ensures BodyLength(body + rest) == |body|
  {
    if body == [] {
      assert body + rest == rest;
    } else {
      assert (body + rest)[0] == body[0] && (body + rest)[1..] == body[1..] + rest;
      BodyLengthIs(body[1..], rest);
    }
  }

  lemma {:induction false} HunksReadBack(hunks: seq<Printed>)
    requires forall k :: 0 <= k < |hunks| ==> WellFormed(hunks[k]) && CleanHunk(hunks[k])
    ensures ReadHunks(AllTexts(hunks)) == Some(hunks)
    ensures AllTexts(hunks) == [] || !IsBody(AllTexts(hunks)[0])
    ensures forall k :: 0 <= k < |AllTexts(hunks)| ==> '\n' !in AllTexts(hunks)[k]
  {
    if hunks != [] {
      HunksReadBack(hunks[1..]);
      HunkReadsBack(hunks[0], AllTexts(hunks[1..]), hunks[1..]);
      assert [hunks[0]] + hunks[1..] == hunks;
    }
  }

  lemma HunkReadsBack(h: Printed, rest: seq<string>, more: seq<Printed>)
    requires WellFormed(h) && CleanHunk(h) && ReadHunks(rest) == Some(more) && (rest == [] || !IsBody(rest[0]))
    ensures ReadHunks(TextsOf(h) + rest) == Some([h] + more) && !IsBody((TextsOf(h) + rest)[0])
    ensures forall k :: 0 <= k < |TextsOf(h)| ==> '\n' !in TextsOf(h)[k]
  {
    HeaderReadsBack(h.header);
    LineTextsClean(h.lines);
    BlockReadsBack(HeaderText(h.header), h.header, LineTexts(h.lines), h.lines, rest, more);
    assert [HeaderText(h.header)] + LineTexts(h.lines) + rest == TextsOf(h) + rest;
  }

  lemma BlockReadsBack(head: string, header: Header, body: seq<string>, lines: seq<Line>, rest: seq<string>,
                       more: seq<Printed>)
    requires ReadHeader(head) == Some(header) && ReadHunks(rest) == Some(more) && (rest == [] || !IsBody(rest[0]))
    requires (forall k :: 0 <= k < |body| ==> IsBody(body[k])) && ReadLines(body) == lines
    ensures ReadHunks([head] + body + rest) == Some([Printed(header, lines)] + more)
  {
    var all := [head] + (body + rest);
    assert all == [head] + body + rest;
    BodyReadsBack(header, body, rest, more);
    HeadReadsBack(head, header, body + rest);
  }

  lemma HeadReadsBack(head: string, header: Header, lines: seq<string>)
    requires ReadHeader(head) == Some(header)
    ensures ReadHunks([head] + lines) == ReadBlock(header, lines)
  {
    assert ([head] + lines)[1..] == lines;
  }

  lemma BodyReadsBack(header: Header, body: seq<string>, rest: seq<string>, more: seq<Printed>)
    requires ReadHunks(rest) == Some(more) && (rest == [] || !IsBody(rest[0]))
    requires forall k :: 0 <= k < |body| ==> IsBody(body[k])
    ensures ReadBlock(header, body + rest) == Some([Printed(header, ReadLines(body))] + more)
  {
    BodyLengthIs(body, rest);
    assert (body + rest)[..|body|] == body && (body + rest)[|body|..] == rest;
  }

  lemma LineTextsClean(lines: seq<Line>)
    requires forall k :: 0 <= k < |lines| ==> lines[k].tag in TAGS && Clean(lines[k].text)
    ensures forall k :: 0 <= k < |LineTexts(lines)| ==> IsBody(LineTexts(lines)[k]) && '\n' !in LineTexts(lines)[k]
    ensures ReadLines(LineTexts(lines)) == lines
  {
    LineTextsAt(lines);
    forall k | 0 <= k < |lines| ensures LineTexts(lines)[k] == [lines[k].tag] + lines[k].text {
      NoEndInside(lines[k].text);
    }
  }

  /** The text of the hunks, one after the other. */
  function AllText(hunks: seq<Printed>): string { Ended(AllTexts(hunks)) }

  lemma {:induction false} AllTextsSnoc(hunks: seq<Printed>, h: Printed)
    ensures AllTexts(hunks + [h]) == AllTexts(hunks) + TextsOf(h)
  {
    if hunks == [] {
      assert hunks + [h] == [h] && [h][1..] == [];
    } else {
      AllTextsSnoc(hunks[1..], h);
      assert (hunks + [h])[0] == hunks[0] && (hunks + [h])[1..] == hunks[1..] + [h];
      Regrouped(TextsOf(hunks[0]), AllTexts(hunks[1..]), TextsOf(h));
    }
  }

  lemma Regrouped(a: seq<string>, b: seq<string>, c: seq<string>)
    ensures a + (b + c) == (a + b) + c
  {
  }

  /** Writing one more hunk appends its text. */
  lemma AllTextSnoc(hunks: seq<Printed>, h: Printed)
    ensures AllText(hunks + [h]) == AllText(hunks) + Ended(TextsOf(h))
  {
    AllTextsSnoc(hunks, h);
    EndedJoin(AllTexts(hunks), TextsOf(h));
  }

  lemma TextOfHunk(h: Printed)
    ensures Ended(TextsOf(h)) == HeaderText(h.header) + "\n" + Ended(LineTexts(h.lines))
  {
    EndedHead(HeaderText(h.header), LineTexts(h.lines));
  }

  lemma EndedHead(head: string, rest: seq<string>)
    ensures Ended([head] + rest) == head + "\n" + Ended(rest)
  {
    assert ([head] + rest)[1..] == rest;
  }

  lemma TextPut(h: Printed, head: string, body: string)
    requires head == HeaderText(h.header) + "\n" && body == Ended(LineTexts(h.lines))
    ensures head + body == Ended(TextsOf(h))
  {
    TextOfHunk(h);
  }

  lemma EndedOne(line: string)
    ensures Ended([line]) == line + "\n"
  {
    assert [line][1..] == [];
    assert Ended([line]) == EndedFrom(line, []);
  }

  /** Writing one more line appends its text and its end. */
  lemma BodyTextSnoc(lines: seq<Line>, k: nat)
    requires k < |lines|
    ensures Ended(LineTexts(lines[..k + 1])) == Ended(LineTexts(lines[..k])) + LineText(lines[k]) + "\n"
  {
    assert lines[..k + 1] == lines[..k] + [lines[k]];
    LineTextsSnoc(lines[..k], lines[k]);
    EndedJoin(LineTexts(lines[..k]), [LineText(lines[k])]);
    EndedOne(LineText(lines[k]));
  }

  /** The text is read back to exactly the hunks that were written if and only if their lines hold neither the end of a
      line nor a NUL. */
  lemma ReadsBackIffClean(hunks: seq<Printed>)
    requires forall k :: 0 <= k < |hunks| ==> WellFormed(hunks[k])
    ensures ReadText(AllText(hunks)) == Some(hunks) <==> forall k :: 0 <= k < |hunks| ==> CleanHunk(hunks[k])
  {
    if forall k :: 0 <= k < |hunks| ==> CleanHunk(hunks[k]) {
      CleanReadsBack(hunks);
    }
    if ReadText(AllText(hunks)) == Some(hunks) {
      NoNulWritten(hunks);
      ReadTextIsClean(AllText(hunks));
    }
  }

  lemma CleanReadsBack(hunks: seq<Printed>)
    requires forall k :: 0 <= k < |hunks| ==> WellFormed(hunks[k]) && CleanHunk(hunks[k])
    ensures ReadText(AllText(hunks)) == Some(hunks)
  {
    HunksReadBack(hunks);
    LinesSplit(AllTexts(hunks));
    assert (AllTexts(hunks) + [""])[..|AllTexts(hunks)|] == AllTexts(hunks);
  }

  lemma ReadTextIsClean(text: string)
    requires '\0' !in text && ReadText(text).Some?
    ensures forall k :: 0 <= k < |ReadText(text).value| ==> CleanHunk(ReadText(text).value[k])
  {
    var lines := Split(text, '\n');
    PiecesWithin(text, '\n');
    ReadIsClean(lines[..|lines| - 1]);
  }

  /** Pieces hold what was in the text, and no separator. */
  lemma {:induction false} PiecesWithin(s: string, sep: char)
    ensures forall k :: 0 <= k < |Split(s, sep)| ==> forall c :: c in Split(s, sep)[k] ==> c in s && c != sep
  {
    if s != "" {
      PiecesWithin(s[1..], sep);
      var rest := Split(s[1..], sep);
      forall k | 0 <= k < |Split(s, sep)| ensures forall c :: c in Split(s, sep)[k] ==> c in s && c != sep {
        if s[0] == sep {
          assert k > 0 ==> Split(s, sep)[k] == rest[k - 1];
        } else {
          assert Split(s, sep)[k] == if k == 0 then [s[0]] + rest[0] else rest[k];
        }
      }
    }
  }

  lemma {:induction false} ReadIsClean(lines: seq<string>)
    requires forall k :: 0 <= k < |lines| ==> Clean(lines[k])
    requires ReadHunks(lines).Some?
    ensures forall k :: 0 <= k < |ReadHunks(lines).value| ==> CleanHunk(ReadHunks(lines).value[k])
    decreases |lines|
  {
    if lines != [] {
      var n := BodyLength(lines[1..]);
      ReadIsClean(lines[1..][n..]);
      BodyIsClean(lines[1..][..n]);
    }
  }

  lemma BodyIsClean(lines: seq<string>)
    requires forall k :: 0 <= k < |lines| ==> IsBody(lines[k])
    requires forall k :: 0 <= k < |lines| ==> Clean(lines[k])
    ensures forall k :: 0 <= k < |lines| ==> Clean(ReadLines(lines)[k].text)
  {
    forall k | 0 <= k < |lines| ensures Clean(ReadLines(lines)[k].text) {
      assert forall c :: c in lines[k][1..] ==> c in lines[k];
    }
  }

  lemma {:induction false} NoNulWritten(hunks: seq<Printed>)
    requires forall k :: 0 <= k < |hunks| ==> WellFormed(hunks[k])
    ensures '\0' !in AllText(hunks)
  {
    if hunks != [] {
      NoNulWritten(hunks[1..]);
      NoNulInHeader(hunks[0].header);
      NoNulInLines(hunks[0].lines);
      EndedJoin(TextsOf(hunks[0]), AllTexts(hunks[1..]));
      TextOfHunk(hunks[0]);
    }
  }

  lemma NoNulInHeader(h: Header)
    ensures '\0' !in HeaderText(h)
  {
    if h.left.Some? {
      SideReadsBack('-', h.left.value);
    }
    if h.right.Some? {
      SideReadsBack('+', h.right.value);
    }
  }

  lemma {:induction false} NoNulInLines(lines: seq<Line>)
    requires Tagged(lines)
    ensures '\0' !in Ended(LineTexts(lines))
  {
    if lines != [] {
      TextOfText(lines[0].text);
      NoNulInLines(lines[1..]);
    }
  }

  // ----- nothing else is read

  function Joined(pieces: seq<string>, sep: char): string {
    if pieces == [] then "" else if |pieces| == 1 then pieces[0] else pieces[0] + [sep] + Joined(pieces[1..], sep)
  }

  lemma {:induction false} SplitJoins(s: string, sep: char)
    ensures Joined(Split(s, sep), sep) == s
  {
    if s != "" {
      SplitJoins(s[1..], sep);
      var rest := Split(s[1..], sep);
      if s[0] == sep {
        assert ([""] + rest)[1..] == rest;
        assert [sep] + s[1..] == s;
      } else {
        assert ([[s[0]] + rest[0]] + rest[1..])[1..] == rest[1..];
        assert [s[0]] + s[1..] == s;
      }
    }
  }

  lemma OneSideText(sign: char, word: string)
    requires ReadSide(sign, word).Some?
    ensures word == SideText(sign, ReadSide(sign, word).value)
  {
    var numbers := Split(word[1..], ',');
    OneNumeral(numbers[0]);
    OneNumeral(numbers[1]);
    TwoPieces(word[1..], ',');
    SignedWord(sign, word, numbers[0], numbers[1]);
  }

  lemma TwoPieces(s: string, sep: char)
    requires |Split(s, sep)| == 2
    ensures s == Split(s, sep)[0] + [sep] + Split(s, sep)[1]
  {
    SplitJoins(s, sep);
    var pieces := Split(s, sep);
    assert pieces[1..] == [pieces[1]];
  }

  lemma SignedWord(sign: char, word: string, a: string, b: string)
    requires word != "" && word[0] == sign && word[1..] == a + [','] + b
    ensures word == [sign] + a + "," + b
  {
    assert word == [sign] + word[1..];
    Glue([sign], a + [','], b);
    Glue([sign], a, [',']);
  }

  lemma OneHeaderText(line: string)
    requires ReadHeader(line).Some?
    ensures var h := ReadHeader(line).value; (h.left.Some? || h.right.Some?) && line == HeaderText(h)
  {
    var words := Split(line, ' ');
    SplitJoins(line, ' ');
    if |words| == 4 {
      OneSideText('-', words[1]);
      OneSideText('+', words[2]);
      FourWords(words);
    } else {
      ThreeWords(words);
      OneSidedText(words[1], ReadSide('-', words[1]), ReadSide('+', words[1]));
    }
  }

  lemma OneSidedText(word: string, left: Option<(nat, nat)>, right: Option<(nat, nat)>)
    requires left == ReadSide('-', word) && right == ReadSide('+', word) && (left.Some? || right.Some?)
    ensures "@@" + " " + word + " " + "@@" == HeaderText(Header(left, right))
  {
    if left.Some? {
      OneSideText('-', word);
      LeftAlone(left.value);
    } else {
      OneSideText('+', word);
      RightAlone(right.value);
    }
    assert "@@" + " " == "@@ ";
    Glue("@@ " + word, " ", "@@");
    assert " " + "@@" == " @@";
  }

  lemma LeftAlone(left: (nat, nat))
    ensures HeaderText(Header(Some(left), None)) == "@@ " + SideText('-', left) + " @@"
  {
  }

  lemma RightAlone(right: (nat, nat))
    ensures HeaderText(Header(None, Some(right))) == "@@ " + SideText('+', right) + " @@"
  {
  }

  lemma Glue(a: string, b: string, c: string)
    ensures (a + b) + c == a + (b + c)
  {
  }

  lemma ThreeWords(words: seq<string>)
    requires |words| == 3
    ensures Joined(words, ' ') == words[0] + " " + words[1] + " " + words[2]
  {
    assert words[1..][1..] == words[2..] && Joined(words[2..], ' ') == words[2];
    assert Joined(words[1..], ' ') == words[1] + " " + words[2];
    Glue(words[0] + " ", words[1] + " ", words[2]);
    Glue(words[0] + " ", words[1], " ");
  }

  lemma FourWords(words: seq<string>)
    requires |words| == 4
    ensures words[0] == words[3] == "@@" ==> Joined(words, ' ') == "@@ " + words[1] + " " + words[2] + " @@"
  {
    ThreeWords(words[1..]);
    if words[0] == words[3] == "@@" {
      var middle := words[1] + " " + words[2];
      assert Joined(words, ' ') == "@@" + " " + (middle + " " + "@@");
      assert "@@" + " " == "@@ ";
      Glue(middle, " ", "@@");
      assert " " + "@@" == " @@";
      Glue("@@ ", middle, " @@");
      Glue("@@ ", words[1] + " ", words[2]);
      Glue("@@ ", words[1], " ");
    }
  }

  lemma OneLineText(line: string)
    requires IsBody(line) && '\0' !in line
    ensures LineText(Line(line[0], line[1..])) == line
  {
    NoEndInside(line[1..]);
  }

  lemma OneBodyText(lines: seq<string>)
    requires forall k :: 0 <= k < |lines| ==> IsBody(lines[k]) && '\0' !in lines[k]
    ensures Tagged(ReadLines(lines)) && LineTexts(ReadLines(lines)) == lines
  {
    LineTextsAt(ReadLines(lines));
    forall k | 0 <= k < |lines| ensures LineText(ReadLines(lines)[k]) == lines[k] {
      OneLineText(lines[k]);
    }
  }

  lemma {:induction false} OneListOfTexts(lines: seq<string>)
    requires (forall k :: 0 <= k < |lines| ==> '\0' !in lines[k]) && ReadHunks(lines).Some?
    ensures var hunks := ReadHunks(lines).value;
      AllTexts(hunks) == lines && forall k :: 0 <= k < |hunks| ==> WellFormed(hunks[k])
    decreases |lines|, 0
  {
    if lines != [] {
      OneHeaderText(lines[0]);
      OneBlock(lines[0], ReadHeader(lines[0]).value, lines[1..]);
      assert [lines[0]] + lines[1..] == lines;
    }
  }

  lemma {:induction false} OneBlock(head: string, header: Header, lines: seq<string>)
    requires (forall k :: 0 <= k < |lines| ==> '\0' !in lines[k]) && ReadBlock(header, lines).Some?
    requires (header.left.Some? || header.right.Some?) && head == HeaderText(header)
    ensures var hunks := ReadBlock(header, lines).value;
      AllTexts(hunks) == [head] + lines && forall k :: 0 <= k < |hunks| ==> WellFormed(hunks[k])
    decreases |lines|, 1
  {
    var n := BodyLength(lines);
    var body, rest := lines[..n], lines[n..];
    OneListOfTexts(rest);
    OneBodyText(body);
    var h, more := Printed(header, ReadLines(body)), ReadHunks(rest).value;
    assert ([h] + more)[1..] == more;
    assert [head] + body + rest == [head] + lines;
  }

  /** A text without NUL is read as these hunks if and only if it is their text, and they are fit to be written. */
  lemma TextIffHunks(text: string, hunks: seq<Printed>)
    requires '\0' !in text
    ensures ReadText(text) == Some(hunks) <==>
      text == AllText(hunks) && forall k :: 0 <= k < |hunks| ==> WellFormed(hunks[k]) && CleanHunk(hunks[k])
  {
    if text == AllText(hunks) && forall k :: 0 <= k < |hunks| ==> WellFormed(hunks[k]) && CleanHunk(hunks[k]) {
      CleanReadsBack(hunks);
    }
    if ReadText(text) == Some(hunks) {
      ReadTextIsClean(text);
      TextOfLines(text);
      var lines := Split(text, '\n');
      PiecesWithin(text, '\n');
      OneListOfTexts(lines[..|lines| - 1]);
    }
  }

  lemma TextOfLines(text: string)
    requires var lines := Split(text, '\n'); lines[|lines| - 1] == ""
    ensures var lines := Split(text, '\n'); Ended(lines[..|lines| - 1]) == text
  {
    SplitJoins(text, '\n');
    JoinedIsEnded(Split(text, '\n'));
  }

  lemma {:induction false} JoinedIsEnded(lines: seq<string>)
    requires lines != [] && lines[|lines| - 1] == ""
    ensures Joined(lines, '\n') == Ended(lines[..|lines| - 1])
  {
    if |lines| > 1 {
      JoinedIsEnded(lines[1..]);
      var front := lines[..|lines| - 1];
      assert front[0] == lines[0] && front[1..] == lines[1..][..|lines| - 2];
      assert Ended(front) == EndedFrom(front[0], front[1..]);
    }
  }

  /** The header line in full, with both sides and with either alone. */
  lemma HeaderReads(left: (nat, nat), right: (nat, nat))
    ensures HeaderText(Header(Some(left), Some(right))) ==
      "@@ -" + Decimal(left.0) + "," + Decimal(left.1) + " +" + Decimal(right.0) + "," + Decimal(right.1) + " @@"
    ensures HeaderText(Header(Some(left), None)) == "@@ -" + Decimal(left.0) + "," + Decimal(left.1) + " @@"
    ensures HeaderText(Header(None, Some(right))) == "@@ +" + Decimal(right.0) + "," + Decimal(right.1) + " @@"
  {
    BothTogether(left, right);
    BothSides(Decimal(left.0), Decimal(left.1), Decimal(right.0), Decimal(right.1));
    LeftAlone(left);
    OneSide("@@ -", '-', Decimal(left.0), Decimal(left.1));
    RightAlone(right);
    OneSide("@@ +", '+', Decimal(right.0), Decimal(right.1));
  }

  lemma BothTogether(left: (nat, nat), right: (nat, nat))
    ensures HeaderText(Header(Some(left), Some(right))) ==
      "@@ " + SideText('-', left) + " " + SideText('+', right) + " @@"
  {
  }

  lemma BothSides(a: string, b: string, c: string, d: string)
    ensures "@@ " + (['-'] + a + "," + b) + " " + (['+'] + c + "," + d) + " @@"
         == "@@ -" + a + "," + b + " +" + c + "," + d + " @@"
  {
    OneSide("@@ -", '-', a, b);
    var front := "@@ -" + a + "," + b;
    Behind(front + " ", '+', c, d);
    Glue(front, " ", ['+']);
    assert " " + ['+'] == " +";
  }

  lemma OneSide(front: string, sign: char, a: string, b: string)
    requires front == "@@ " + [sign]
    ensures "@@ " + ([sign] + a + "," + b) == front + a + "," + b
  {
    Behind("@@ ", sign, a, b);
  }

  lemma Behind(front: string, sign: char, a: string, b: string)
    ensures front + ([sign] + a + "," + b) == front + [sign] + a + "," + b
  {
    Glue(front, [sign] + a + ",", b);
    Glue(front, [sign] + a, ",");
    Glue(front, [sign], a);
  }
}
