/** Bodies of the EST protocol (`api/est_protocol.py`): base64 folded into lines on the way out, and
    a decoder that tolerates any white space and PEM armour on the way in. */
module EstCodec {
  import opened Prelude
  import opened Base64

  const WIDTH: nat := 64

  // ---- Out ------------------------------------------------------------------------------

  /** Lines of 64 characters, each ended by a line feed. */
  function Fold(text: string): string {
    if text == "" then ""
    else
      var n := if |text| < WIDTH then |text| else WIDTH;
      text[..n] + "\n" + Fold(text[n..])
  }

  function Body(data: seq<Byte>): string {
    Fold(Encode(data))
  }

  function DropTrailing(s: string): string {
    if s != "" && s[|s| - 1] == '\n' then DropTrailing(s[..|s| - 1]) else s
  }

  function Cr(c: char): string {
    if c == '\n' then "\r\n" else [c]
  }

  /** Each character replaced by what `f` makes of it. */
  function Spread(f: char -> string, s: string): string {
    if s == "" then "" else f(s[0]) + Spread(f, s[1..])
  }

  /** Every line feed becomes a carriage return and a line feed. */
  function CrLf(s: string): string {
    Spread(Cr, s)
  }

  /** A body framed as a MIME part. */
  function Reframe(body: string): string {
    CrLf(DropTrailing(body))
  }

  // ---- In ---------------------------------------------------------------------------------

  /** What `str.splitlines` breaks at. A carriage return and a line feed count as two breaks here:
      the empty line between them is dropped anyway. */
  predicate Break(c: char) {
    || '\n' <= c <= '\r' || 0x1C as char <= c <= 0x1E as char || c == 0x85 as char
    || c == 0x2028 as char || c == 0x2029 as char
  }

  /** What `str.split` and `str.strip` take for white space. */
  predicate Space(c: char) {
    || '\t' <= c <= '\r' || 0x1C as char <= c <= ' ' || c == 0x85 as char || c == 0xA0 as char
    || c == 0x1680 as char || 0x2000 as char <= c <= 0x200A as char || c == 0x2028 as char
    || c == 0x2029 as char || c == 0x202F as char || c == 0x205F as char || c == 0x3000 as char
  }

  /** All white space removed. */
  function Squeeze(s: string): string {
    if s == "" then ""
    else if Space(s[0]) then Squeeze(s[1..])
    else [s[0]] + Squeeze(s[1..])
  }

  function StripLeft(s: string): string {
    if s != "" && Space(s[0]) then StripLeft(s[1..]) else s
  }

  function StripRight(s: string): string {
    if s != "" && Space(s[|s| - 1]) then StripRight(s[..|s| - 1]) else s
  }

  const DASHES: string := "-----"
  const BEGIN: string := "-----BEGIN"

  predicate StartsWith(s: string, prefix: string) {
    |s| >= |prefix| && s[..|prefix|] == prefix
  }

  /** What one line of armoured text contributes. */
  function LinePayload(line: string): string {
    if StartsWith(line, DASHES) then "" else StripRight(StripLeft(line))
  }

  /** The text up to the first line break. */
  function FirstLine(s: string): (r: string)
    ensures |r| <= |s|
  {
    if s == "" || Break(s[0]) then "" else [s[0]] + FirstLine(s[1..])
  }

  /** The base64 between the armour lines. */
  function PemPayload(s: string): string
    decreases |s|
  {
    if s == "" then ""
    else
      var line := FirstLine(s);
      LinePayload(line) + (if |line| < |s| then PemPayload(s[|line| + 1..]) else "")
  }

  predicate HasBegin(s: string) {
    exists i | 0 <= i < |s| :: StartsWith(s[i..], BEGIN)
  }

  function DecodeCsr(text: string): Option<seq<Byte>> {
    if HasBegin(text) then Decode(PemPayload(text)) else Decode(Squeeze(text))
  }

  // ---- White space does not matter ------------------------------------------------------------

  lemma {:induction false} SqueezeConcat(s: string, t: string)
    ensures Squeeze(s + t) == Squeeze(s) + Squeeze(t)
  {
    if s == "" {
      assert s + t == t;
    } else {
      SqueezeConcat(s[1..], t);
      assert (s + t)[1..] == s[1..] + t;
    }
  }

  predicate NoSpace(s: string) {
    forall i | 0 <= i < |s| :: !Space(s[i])
  }

  lemma {:induction false} SqueezeNothing(s: string)
    requires NoSpace(s)
    ensures Squeeze(s) == s
  {
    if s != "" {
      SqueezeNothing(s[1..]);
    }
  }

  lemma CodedHasNoSpace(t: string)
    requires Coded(t)
    ensures NoSpace(t) && '-' !in t && (forall i | 0 <= i < |t| :: !Break(t[i]))
  {
  }

  lemma {:induction false} SqueezeFold(text: string)
    requires NoSpace(text)
    ensures Squeeze(Fold(text)) == text
  {
    if text != "" {
      var n := if |text| < WIDTH then |text| else WIDTH;
      SqueezeFold(text[n..]);
      SqueezeConcat(text[..n] + "\n", Fold(text[n..]));
      SqueezeConcat(text[..n], "\n");
      SqueezeNothing(text[..n]);
      assert Squeeze("\n") == "";
      assert text == text[..n] + text[n..];
    }
  }

  lemma {:induction false} SqueezeCrLf(s: string)
    ensures Squeeze(CrLf(s)) == Squeeze(s)
  {
    if s != "" {
      SqueezeCrLf(s[1..]);
      SqueezeConcat(Cr(s[0]), CrLf(s[1..]));
      if s[0] == '\n' {
        assert "\r\n"[1..] == "\n" && "\n"[1..] == "";
      }
    }
  }

  lemma {:induction false} SqueezeDropTrailing(s: string)
    ensures Squeeze(DropTrailing(s)) == Squeeze(s)
  {
    if s != "" && s[|s| - 1] == '\n' {
      var front := s[..|s| - 1];
      SqueezeDropTrailing(front);
      SqueezeConcat(front, "\n");
      assert s == front + "\n" && Squeeze("\n") == "";
    }
  }

  lemma {:induction false} SqueezeKeeps(s: string, c: char)
    requires c in s && !Space(c)
    ensures c in Squeeze(s)
  {
    if s[0] != c {
      SqueezeKeeps(s[1..], c);
    }
  }

  /** A text that is only an encoding and white space holds no dash, so it is never taken for PEM. */
  lemma SpacedHasNoBegin(text: string)
    requires Coded(Squeeze(text))
    ensures !HasBegin(text)
  {
    CodedHasNoSpace(Squeeze(text));
    forall i | 0 <= i < |text| ensures !StartsWith(text[i..], BEGIN) {
      if text[i] == '-' {
        SqueezeKeeps(text, '-');
      }
      assert text[i..][0] == text[i] && BEGIN[0] == '-';
    }
  }

  /** Whatever white space is put into an encoding, and wherever, it decodes to the same bytes. */
  lemma AnySpacing(data: seq<Byte>, text: string)
    requires Squeeze(text) == Encode(data)
    ensures DecodeCsr(text) == Some(data)
  {
    EncodeIsCoded(data);
    SpacedHasNoBegin(text);
    DecodeEncode(data);
  }

  /** Text without armour yields `data` in canonical form exactly when it is the encoding of `data`
      with white space in it. */
  lemma SpacingIff(data: seq<Byte>, text: string)
    requires !HasBegin(text)
    ensures DecodeCsr(text) == Some(data) && Canonical(Squeeze(text)) <==> Squeeze(text) == Encode(data)
  {
    DecodeEncode(data);
    if Decode(Squeeze(text)).Some? {
      EncodeDecodeIff(Squeeze(text));
    }
  }

  lemma BodySqueezes(data: seq<Byte>)
    ensures Squeeze(Body(data)) == Encode(data)
  {
    EncodeIsCoded(data);
    CodedHasNoSpace(Encode(data));
    SqueezeFold(Encode(data));
  }

  /** The folded body decodes to the bytes it was made from. */
  lemma BodyRoundTrip(data: seq<Byte>)
    ensures DecodeCsr(Body(data)) == Some(data)
  {
    BodySqueezes(data);
    AnySpacing(data, Body(data));
  }

  /** So does the body once reframed for a MIME part. */
  lemma ReframedRoundTrip(data: seq<Byte>)
    ensures DecodeCsr(Reframe(Body(data))) == Some(data)
  {
    var body := Body(data);
    BodySqueezes(data);
    SqueezeCrLf(DropTrailing(body));
    SqueezeDropTrailing(body);
    AnySpacing(data, Reframe(body));
  }

  // ---- Line lengths ---------------------------------------------------------------------------

  /** `s` cut at its line feeds; what follows the last one is the last piece. */
  function Lines(s: string): (r: seq<string>)
    ensures r != []
  {
    if s == "" then [""]
    else
      var rest := Lines(s[1..]);
      if s[0] == '\n' then [""] + rest else [[s[0]] + rest[0]] + rest[1..]
  }

  lemma {:induction false} LinesOfLine(line: string, rest: string)
    requires '\n' !in line
    ensures Lines(line + "\n" + rest) == [line] + Lines(rest)
  {
    if line == "" {
      assert (line + "\n" + rest)[1..] == rest;
    } else {
      LinesOfLine(line[1..], rest);
      assert (line + "\n" + rest)[1..] == line[1..] + "\n" + rest;
      assert [line[0]] + line[1..] == line;
    }
  }

  /** Every line is at most 64 characters, within the 76 of section 6.8 of RFC 2045; every line but
      the last is exactly 64; and the text ends with a line feed unless it is empty. */
  lemma {:induction false} FoldedLines(text: string)
    requires '\n' !in text
    ensures var l := Lines(Fold(text));
            && l[|l| - 1] == ""
            && (forall i | 0 <= i < |l| - 1 :: 0 < |l[i]| <= WIDTH <= 76)
            && (forall i | 0 <= i < |l| - 2 :: |l[i]| == WIDTH)
            && |l| == (|text| + WIDTH - 1) / WIDTH + 1
  {
    if text != "" {
      var n := if |text| < WIDTH then |text| else WIDTH;
      FoldedLines(text[n..]);
      LinesOfLine(text[..n], Fold(text[n..]));
    }
  }

  lemma BodyLines(data: seq<Byte>)
    ensures var l := Lines(Body(data));
            && l[|l| - 1] == ""
            && (forall i | 0 <= i < |l| - 1 :: 0 < |l[i]| <= WIDTH <= 76)
            && (forall i | 0 <= i < |l| - 2 :: |l[i]| == WIDTH)
            && |l| == ((|data| + 2) / 3 * 4 + WIDTH - 1) / WIDTH + 1
  {
    EncodeIsCoded(data);
    FeedNotCoded(Encode(data));
    FoldedLines(Encode(data));
  }

  /** The lines with `mark` between them. */
  function Join(lines: seq<string>, mark: string): string {
    if lines == [] then ""
    else if |lines| == 1 then lines[0]
    else lines[0] + mark + Join(lines[1..], mark)
  }

  lemma {:induction false} JoinOneMore(c: char, lines: seq<string>, mark: string)
    requires lines != []
    ensures Join([[c] + lines[0]] + lines[1..], mark) == [c] + Join(lines, mark)
  {
    var more := [[c] + lines[0]] + lines[1..];
    assert more[1..] == lines[1..];
    if |lines| > 1 {
      assert [c] + lines[0] + mark + Join(lines[1..], mark) == [c] + (lines[0] + mark + Join(lines[1..], mark));
    }
  }

  lemma {:induction false} CrLfJoins(s: string)
    ensures CrLf(s) == Join(Lines(s), "\r\n")
  {
    if s != "" {
      var rest := Lines(s[1..]);
      CrLfJoins(s[1..]);
      if s[0] == '\n' {
        assert ([""] + rest)[1..] == rest;
        assert "" + "\r\n" + Join(rest, "\r\n") == "\r\n" + Join(rest, "\r\n");
      } else {
        JoinOneMore(s[0], rest, "\r\n");
      }
    }
  }

  lemma {:induction false} LinesEnd(s: string)
    ensures Lines(s + "\n") == Lines(s) + [""]
  {
    if s == "" {
      assert s + "\n" == "\n" && "\n"[1..] == "";
      assert Lines("\n") == [""] + Lines("");
    } else {
      LinesEnd(s[1..]);
      assert (s + "\n")[1..] == s[1..] + "\n";
      assert (Lines(s[1..]) + [""])[1..] == Lines(s[1..])[1..] + [""];
    }
  }

  /** A folded text ends in exactly one line feed. */
  lemma {:induction false} FoldEnds(text: string)
    requires text != "" && '\n' !in text
    ensures var f := Fold(text);
            |f| > 1 && f[|f| - 1] == '\n' && f[|f| - 2] != '\n'
  {
    var n := if |text| < WIDTH then |text| else WIDTH;
    if text[n..] != "" {
      FoldEnds(text[n..]);
    } else {
      assert Fold(text) == text[..n] + "\n";
      assert Fold(text)[n - 1] == text[n - 1];
    }
  }

  lemma FeedNotCoded(t: string)
    requires Coded(t)
    ensures '\n' !in t
  {
    CodedHasNoSpace(t);
    assert Space('\n');
  }

  /** The MIME part is the lines of the body with a carriage return and a line feed between them,
      and none after the last. */
  lemma ReframedLines(data: seq<Byte>)
    ensures var l := Lines(Body(data));
            Reframe(Body(data)) == Join(l[..|l| - 1], "\r\n")
  {
    var body := Body(data);
    EncodeIsCoded(data);
    FeedNotCoded(Encode(data));
    if body == "" {
      assert Lines(body)[..0] == [];
    } else {
      FoldEnds(Encode(data));
      var front := body[..|body| - 1];
      assert body == front + "\n" && DropTrailing(front) == front;
      LinesEnd(front);
      assert (Lines(front) + [""])[..|Lines(front)|] == Lines(front);
      CrLfJoins(front);
    }
  }

  // ---- Armour -----------------------------------------------------------------------------------

  predicate OneLine(s: string) {
    forall i | 0 <= i < |s| :: !Break(s[i])
  }

  lemma {:induction false} FirstLineOf(line: string, c: char, rest: string)
    requires OneLine(line) && Break(c)
    ensures FirstLine(line + [c] + rest) == line
  {
    if line == "" {
    } else {
      FirstLineOf(line[1..], c, rest);
      assert (line + [c] + rest)[1..] == line[1..] + [c] + rest;
    }
  }

  lemma PayloadOfLine(line: string, c: char, rest: string)
    requires OneLine(line) && Break(c)
    ensures PemPayload(line + [c] + rest) == LinePayload(line) + PemPayload(rest)
  {
    FirstLineOf(line, c, rest);
    assert (line + [c] + rest)[|line| + 1..] == rest;
  }

  lemma {:induction false} FirstLineShape(s: string)
    ensures var n := |FirstLine(s)|;
            n <= |s| && FirstLine(s) == s[..n] && OneLine(s[..n]) && (n < |s| ==> Break(s[n]))
  {
    if s != "" && !Break(s[0]) {
      var rest := s[1..];
      var n := |FirstLine(rest)|;
      FirstLineShape(rest);
      assert s == [s[0]] + rest;
      assert s[..n + 1] == [s[0]] + rest[..n];
    }
  }

  lemma StripNothing(s: string)
    requires NoSpace(s)
    ensures StripRight(StripLeft(s)) == s
  {
  }

  /** A line of armoured text: white space, a piece of base64, white space. */
  datatype Row = Row(left: string, piece: string, right: string)

  predicate Blank(s: string) {
    forall i | 0 <= i < |s| :: Space(s[i]) && !Break(s[i])
  }

  predicate Proper(r: Row) {
    Blank(r.left) && Coded(r.piece) && Blank(r.right)
  }

  predicate AllProper(rows: seq<Row>) {
    forall i | 0 <= i < |rows| :: Proper(rows[i])
  }

  function Line(r: Row): string {
    r.left + r.piece + r.right
  }

  function Laid(rows: seq<Row>): string {
    if rows == [] then "" else Line(rows[0]) + ['\n'] + Laid(rows[1..])
  }

  function Pieces(rows: seq<Row>): string {
    if rows == [] then "" else rows[0].piece + Pieces(rows[1..])
  }

  lemma {:induction false} StripLeftBlank(left: string, rest: string)
    requires Blank(left)
    ensures StripLeft(left + rest) == StripLeft(rest)
  {
    if left == "" {
      assert left + rest == rest;
    } else {
      StripLeftBlank(left[1..], rest);
      assert (left + rest)[1..] == left[1..] + rest;
    }
  }

  lemma {:induction false} StripRightBlank(rest: string, right: string)
    requires Blank(right)
    ensures StripRight(rest + right) == StripRight(rest)
  {
    if right == "" {
      assert rest + right == rest;
    } else {
      StripRightBlank(rest, right[..|right| - 1]);
      assert (rest + right)[..|rest + right| - 1] == rest + right[..|right| - 1];
    }
  }

  lemma RowPayload(r: Row)
    requires Proper(r)
    ensures OneLine(Line(r)) && LinePayload(Line(r)) == r.piece
  {
    var line := Line(r);
    CodedHasNoSpace(r.piece);
    assert '-' !in line;
    assert !StartsWith(line, DASHES) by {
      assert DASHES[0] == '-';
    }
    StripNothing(r.piece);
    assert line == r.left + (r.piece + r.right);
    StripLeftBlank(r.left, r.piece + r.right);
    if r.piece == "" {
      assert r.piece + r.right == r.right + "";
      StripLeftBlank(r.right, "");
    } else {
      assert StripLeft(r.piece + r.right) == r.piece + r.right;
      StripRightBlank(r.piece, r.right);
    }
  }

  lemma LaidCons(r: Row, more: seq<Row>, tail: string)
    ensures Laid([r] + more) + tail == Line(r) + ['\n'] + (Laid(more) + tail)
    ensures Pieces([r] + more) == r.piece + Pieces(more)
  {
    assert ([r] + more)[1..] == more;
  }

  /** A reader that takes lines one at a time reads rows piece by piece. */
  lemma {:induction false} ReadRows(read: string -> string, rows: seq<Row>, tail: string)
    requires forall r, rest | Proper(r) :: read(Line(r) + ['\n'] + rest) == r.piece + read(rest)
    requires AllProper(rows)
    ensures read(Laid(rows) + tail) == Pieces(rows) + read(tail)
  {
    if rows == [] {
      assert Laid(rows) + tail == tail && Pieces(rows) + read(tail) == read(tail);
    } else {
      var r, more := rows[0], rows[1..];
      ReadRows(read, more, tail);
      assert rows == [r] + more;
      LaidCons(r, more, tail);
      assert r.piece + (Pieces(more) + read(tail)) == r.piece + Pieces(more) + read(tail);
    }
  }

  lemma PayloadOfRow(r: Row, rest: string)
    requires Proper(r)
    ensures PemPayload(Line(r) + ['\n'] + rest) == r.piece + PemPayload(rest)
  {
    RowPayload(r);
    PayloadOfLine(Line(r), '\n', rest);
  }

  lemma PayloadOfRows(rows: seq<Row>, tail: string)
    requires AllProper(rows)
    ensures PemPayload(Laid(rows) + tail) == Pieces(rows) + PemPayload(tail)
  {
    forall r, rest | Proper(r) ensures PemPayload(Line(r) + ['\n'] + rest) == r.piece + PemPayload(rest) {
      PayloadOfRow(r, rest);
    }
    ReadRows(PemPayload, rows, tail);
  }

  function Head(title: string): string {
    DASHES + "BEGIN " + title + DASHES
  }

  function Foot(title: string): string {
    DASHES + "END " + title + DASHES
  }

  /** `content` between armour lines with a one-line title. */
  function Armour(title: string, content: string): string {
    Head(title) + ['\n'] + (content + (Foot(title) + ['\n']))
  }

  lemma ArmourLine(word: string, title: string)
    requires OneLine(word) && OneLine(title)
    ensures var line := DASHES + word + title + DASHES;
            OneLine(line) && LinePayload(line) == ""
  {
  }

  lemma PayloadBetween(head: string, rows: seq<Row>, foot: string)
    requires OneLine(head) && OneLine(foot) && LinePayload(head) == LinePayload(foot) == ""
    requires AllProper(rows)
    ensures PemPayload(head + ['\n'] + (Laid(rows) + (foot + ['\n']))) == Pieces(rows)
  {
    var tail := foot + ['\n'];
    PayloadOfLine(head, '\n', Laid(rows) + tail);
    PayloadOfRows(rows, tail);
    PayloadOfLine(foot, '\n', "");
    assert foot + ['\n'] + "" == tail;
  }

  lemma ArmourPayload(title: string, rows: seq<Row>)
    requires OneLine(title) && AllProper(rows)
    ensures PemPayload(Armour(title, Laid(rows))) == Pieces(rows)
  {
    ArmourLine("BEGIN ", title);
    ArmourLine("END ", title);
    PayloadBetween(Head(title), rows, Foot(title));
  }

  lemma ArmourBegins(title: string, content: string)
    ensures StartsWith(Armour(title, content), BEGIN)
  {
  }

  /** Armoured text is taken for PEM whatever follows the opening words. */
  lemma BeginsHasBegin(s: string)
    requires StartsWith(s, BEGIN)
    ensures HasBegin(s)
  {
    assert s[0..] == s;
  }

  lemma {:induction false} SpreadConcat(f: char -> string, s: string, t: string)
    ensures Spread(f, s + t) == Spread(f, s) + Spread(f, t)
  {
    if s == "" {
      assert s + t == t;
    } else {
      SpreadConcat(f, s[1..], t);
      assert (s + t)[1..] == s[1..] + t;
      assert f(s[0]) + (Spread(f, s[1..]) + Spread(f, t)) == f(s[0]) + Spread(f, s[1..]) + Spread(f, t);
    }
  }

  lemma {:induction false} CrLfPlain(s: string)
    requires OneLine(s)
    ensures CrLf(s) == s
  {
    if s != "" {
      assert !Break(s[0]);
      CrLfPlain(s[1..]);
    }
  }

  lemma CrLfOfLine(line: string, c: char, rest: string)
    requires OneLine(line)
    ensures CrLf(line + [c] + rest) == line + Cr(c) + CrLf(rest)
  {
    SpreadConcat(Cr, line + [c], rest);
    SpreadConcat(Cr, line, [c]);
    CrLfPlain(line);
    assert CrLf([c]) == Cr(c);
  }

  lemma PayloadOfFeed(rest: string)
    ensures PemPayload(['\n'] + rest) == PemPayload(rest)
  {
  }

  lemma PairSplit(line: string, rest: string)
    ensures line + "\r\n" + rest == line + ['\r'] + (['\n'] + rest)
  {
  }

  lemma PayloadOfPair(line: string, rest: string)
    requires OneLine(line)
    ensures PemPayload(line + "\r\n" + rest) == LinePayload(line) + PemPayload(rest)
  {
    PayloadOfFeed(rest);
    PayloadOfLine(line, '\r', ['\n'] + rest);
    PairSplit(line, rest);
  }

  /** A line means the same once its ending is rewritten. */
  lemma PayloadOfCr(line: string, c: char, rest: string)
    requires OneLine(line) && Break(c)
    ensures PemPayload(line + Cr(c) + rest) == LinePayload(line) + PemPayload(rest)
  {
    if c == '\n' {
      PayloadOfPair(line, rest);
    } else {
      PayloadOfLine(line, c, rest);
    }
  }

  /** Carriage returns before the line feeds change nothing in armoured text. */
  lemma {:induction false} PayloadCrLf(s: string)
    ensures PemPayload(CrLf(s)) == PemPayload(s)
    decreases |s|
  {
    var n := |FirstLine(s)|;
    FirstLineShape(s);
    if n < |s| {
      var line, c, rest := s[..n], s[n], s[n + 1..];
      assert s == line + [c] + rest;
      PayloadCrLf(rest);
      PayloadOfLine(line, c, rest);
      CrLfOfLine(line, c, rest);
      PayloadOfCr(line, c, CrLf(rest));
    } else {
      assert s[..n] == s;
      CrLfPlain(s);
    }
  }

  lemma CrLfStartsWith(s: string, prefix: string)
    requires OneLine(prefix) && StartsWith(s, prefix)
    ensures StartsWith(CrLf(s), prefix)
  {
    var rest := s[|prefix|..];
    assert s == prefix + rest;
    SpreadConcat(Cr, prefix, rest);
    CrLfPlain(prefix);
  }

  lemma DecodeArmoured(text: string, data: seq<Byte>)
    ensures HasBegin(text) && PemPayload(text) == Encode(data) ==> DecodeCsr(text) == Some(data)
  {
    DecodeEncode(data);
  }

  lemma CrLfBegins(text: string)
    requires StartsWith(text, BEGIN)
    ensures HasBegin(text) && HasBegin(CrLf(text))
  {
    BeginsHasBegin(text);
    CrLfStartsWith(text, BEGIN);
    BeginsHasBegin(CrLf(text));
  }

  /** Inside PEM armour with any one-line title, whatever the line lengths, blank lines and
      indentation, and with or without carriage returns, an encoding decodes to its bytes. */
  lemma ArmouredAnyLayout(title: string, rows: seq<Row>, data: seq<Byte>)
    requires OneLine(title) && AllProper(rows) && Pieces(rows) == Encode(data)
    ensures DecodeCsr(Armour(title, Laid(rows))) == Some(data)
    ensures DecodeCsr(CrLf(Armour(title, Laid(rows)))) == Some(data)
  {
    var text := Armour(title, Laid(rows));
    ArmourBegins(title, Laid(rows));
    CrLfBegins(text);
    ArmourPayload(title, rows);
    DecodeArmoured(text, data);
    PayloadCrLf(text);
    DecodeArmoured(CrLf(text), data);
  }

  /** The lines of a folded text as rows. */
  function FoldRows(text: string): seq<Row> {
    if text == "" then []
    else
      var n := if |text| < WIDTH then |text| else WIDTH;
      [Row("", text[..n], "")] + FoldRows(text[n..])
  }

  lemma {:induction false} FoldIsLaid(text: string)
    requires Coded(text)
    ensures var rows := FoldRows(text);
            && Laid(rows) == Fold(text) && Pieces(rows) == text
            && AllProper(rows)
  {
    if text != "" {
      var n := if |text| < WIDTH then |text| else WIDTH;
      var r, more := Row("", text[..n], ""), FoldRows(text[n..]);
      FoldIsLaid(text[n..]);
      LaidCons(r, more, "");
      assert Line(r) == text[..n] && Laid(more) + "" == Laid(more) && Laid([r] + more) + "" == Laid([r] + more);
      assert text == text[..n] + text[n..];
    }
  }

  /** The armoured body decodes to the bytes it was made from, with or without carriage returns. */
  lemma ArmouredRoundTrip(title: string, data: seq<Byte>)
    requires OneLine(title)
    ensures DecodeCsr(Armour(title, Body(data))) == Some(data)
    ensures DecodeCsr(CrLf(Armour(title, Body(data)))) == Some(data)
  {
    EncodeIsCoded(data);
    FoldIsLaid(Encode(data));
    ArmouredAnyLayout(title, FoldRows(Encode(data)), data);
  }
}
