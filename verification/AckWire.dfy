/** The headers and the body of an acknowledgement: the fast and the generic way of reading headers, and
    the 40-byte body. */
module AckWire {
  import opened Forest
  import opened ByteLists
  import opened Streams
  import opened AckFraming

  const CR: Byte := 13
  const LF: Byte := 10
  const COLON: Byte := 58
  const SPACE: Byte := 32
  const CRLF: seq<Byte> := [13, 10]
  /** "HTTP/1." and "content-length". */
  const HTTP1: seq<Byte> := [72, 84, 84, 80, 47, 49, 46]
  const LENGTH_NAME: seq<Byte> := [99, 111, 110, 116, 101, 110, 116, 45, 108, 101, 110, 103, 116, 104]

  const MAX_STATUS: nat := 65535
  const MAX_LENGTH: nat := 0xFFFF_FFFF_FFFF_FFFF

  // ---------------------------------------------------------------- small readers

  function Lower(b: Byte): Byte { if 65 <= b <= 90 then b + 32 else b }

  predicate SameFolded(a: seq<Byte>, b: seq<Byte>) {
    |a| == |b| && forall k | 0 <= k < |a| :: Lower(a[k]) == Lower(b[k])
  }

  /** What the fast reader trims. */
  predicate IsBlank(b: Byte) { b == SPACE || b == 9 || b == CR }

  function TrimLeft(b: seq<Byte>): seq<Byte> { if |b| > 0 && IsBlank(b[0]) then TrimLeft(b[1..]) else b }

  function TrimRight(b: seq<Byte>): seq<Byte> {
    if |b| > 0 && IsBlank(b[|b| - 1]) then TrimRight(b[..|b| - 1]) else b
  }

  function Trim(b: seq<Byte>): seq<Byte> { TrimRight(TrimLeft(b)) }

  // ---------------------------------------------------------------- white space of text

  predicate IsWhite(b: Byte) { b == SPACE || 9 <= b <= 13 }

  /** The white-space characters outside ASCII, as they are encoded in text: U+0085 and U+00A0 ... */
  predicate IsWhite2(a: Byte, b: Byte) { a == 0xC2 && (b == 0x85 || b == 0xA0) }

  /** ... and U+1680, U+2000 to U+200A, U+2028, U+2029, U+202F, U+205F and U+3000. */
  predicate IsWhite3(a: Byte, b: Byte, c: Byte) {
    || (a == 0xE1 && b == 0x9A && c == 0x80)
    || (a == 0xE2 && b == 0x80 && (0x80 <= c <= 0x8A || c == 0xA8 || c == 0xA9 || c == 0xAF))
    || (a == 0xE2 && b == 0x81 && c == 0x9F)
    || (a == 0xE3 && b == 0x80 && c == 0x80)
  }

  /** The length of the white-space character the text starts with, or zero. */
  function WhiteStart(b: seq<Byte>): (n: nat)
    ensures n <= |b|
  {
    if |b| >= 1 && IsWhite(b[0]) then 1
    else if |b| >= 2 && IsWhite2(b[0], b[1]) then 2
    else if |b| >= 3 && IsWhite3(b[0], b[1], b[2]) then 3
    else 0
  }

  /** The length of the one it ends with. */
  function WhiteEnd(b: seq<Byte>): (n: nat)
    ensures n <= |b|
  {
    var k := |b|;
    if k >= 1 && IsWhite(b[k - 1]) then 1
    else if k >= 2 && IsWhite2(b[k - 2], b[k - 1]) then 2
    else if k >= 3 && IsWhite3(b[k - 3], b[k - 2], b[k - 1]) then 3
    else 0
  }

  function SkipWhite(b: seq<Byte>): seq<Byte> { if WhiteStart(b) > 0 then SkipWhite(b[WhiteStart(b)..]) else b }

  function DropWhite(b: seq<Byte>): seq<Byte> { if WhiteEnd(b) > 0 then DropWhite(b[..|b| - WhiteEnd(b)]) else b }

  /** What the generic reader trims. */
  function TrimText(b: seq<Byte>): seq<Byte> { DropWhite(SkipWhite(b)) }

  /** A decimal number with an optional plus sign, at most `max`. */
  function Number(b: seq<Byte>, max: nat): Result<nat> {
    var digits := if |b| > 0 && b[0] == 43 then b[1..] else b;
    if |digits| == 0 then Err else Digits(digits, max)
  }

  function Digits(b: seq<Byte>, max: nat): Result<nat> {
    if |b| == 0 then Ok(0)
    else
      match Digits(b[..|b| - 1], max)
      case Err => Err
      case Ok(n) =>
        var d := b[|b| - 1];
        if 48 <= d <= 57 && n * 10 + (d - 48) <= max then Ok(n * 10 + (d - 48)) else Err
  }

  // ---------------------------------------------------------------- lines

  /** The pieces between line feeds; and between carriage return and line feed pairs. */
  function SplitLf(b: seq<Byte>): (r: seq<seq<Byte>>)
    ensures |r| > 0
  {
    if |b| == 0 then [[]]
    else
      var rest := SplitLf(b[1..]);
      if b[0] == LF then [[]] + rest else [[b[0]] + rest[0]] + rest[1..]
  }

  function SplitCrLf(b: seq<Byte>): (r: seq<seq<Byte>>)
    ensures |r| > 0
    decreases |b|
  {
    if |b| == 0 then [[]]
    else if |b| >= 2 && b[0] == CR && b[1] == LF then [[]] + SplitCrLf(b[2..])
    else
      var rest := SplitCrLf(b[1..]);
      [[b[0]] + rest[0]] + rest[1..]
  }

  predicate OneLine(line: seq<Byte>) { |line| > 0 && forall k | 0 <= k < |line| :: line[k] != CR && line[k] != LF }

  function JoinLines(lines: seq<seq<Byte>>): seq<Byte>
    requires |lines| > 0
  {
    if |lines| == 1 then lines[0] else lines[0] + (CRLF + JoinLines(lines[1..]))
  }

  predicate AllLines(lines: seq<seq<Byte>>) { |lines| > 0 ==> OneLine(lines[0]) && AllLines(lines[1..]) }

  /** Splitting at line feeds leaves the carriage return on every line but the last. */
  function WithCr(lines: seq<seq<Byte>>): seq<seq<Byte>> {
    if |lines| <= 1 then lines else [lines[0] + [CR]] + WithCr(lines[1..])
  }

  lemma {:induction false} SplitLfFirst(line: seq<Byte>, rest: seq<Byte>)
    requires forall k | 0 <= k < |line| :: line[k] != LF
    ensures SplitLf(line + ([LF] + rest)) == [line] + SplitLf(rest)
  {
    var b := line + ([LF] + rest);
    if |line| == 0 {
      assert b == [LF] + rest && b[1..] == rest;
    } else {
      assert b[1..] == line[1..] + ([LF] + rest);
      SplitLfFirst(line[1..], rest);
      assert [line[0]] + line[1..] == line;
    }
  }

  lemma {:induction false} SplitLfLast(line: seq<Byte>)
    requires forall k | 0 <= k < |line| :: line[k] != LF
    ensures SplitLf(line) == [line]
  {
    if |line| == 0 {
    } else {
      SplitLfLast(line[1..]);
      assert [line[0]] + line[1..] == line;
    }
  }

  lemma {:induction false} SplitLfLines(lines: seq<seq<Byte>>)
    requires |lines| > 0 && AllLines(lines)
    ensures SplitLf(JoinLines(lines)) == WithCr(lines)
  {
    if |lines| == 1 {
      SplitLfLast(lines[0]);
    } else {
      var rest := JoinLines(lines[1..]);
      assert lines[0] + (CRLF + rest) == (lines[0] + [CR]) + ([LF] + rest);
      SplitLfFirst(lines[0] + [CR], rest);
      SplitLfLines(lines[1..]);
    }
  }

  lemma {:induction false} SplitCrLfFirst(line: seq<Byte>, rest: seq<Byte>)
    requires forall k | 0 <= k < |line| :: line[k] != CR
    ensures SplitCrLf(line + (CRLF + rest)) == [line] + SplitCrLf(rest)
  {
    var b := line + (CRLF + rest);
    if |line| == 0 {
      assert b == CRLF + rest && b[2..] == rest;
    } else {
      assert b[1..] == line[1..] + (CRLF + rest);
      SplitCrLfFirst(line[1..], rest);
      assert [line[0]] + line[1..] == line;
    }
  }

  lemma {:induction false} SplitCrLfLast(line: seq<Byte>)
    requires forall k | 0 <= k < |line| :: line[k] != CR
    ensures SplitCrLf(line) == [line]
  {
    if |line| == 0 {
    } else {
      SplitCrLfLast(line[1..]);
      assert [line[0]] + line[1..] == line;
    }
  }

  lemma {:induction false} SplitCrLfLines(lines: seq<seq<Byte>>)
    requires |lines| > 0 && AllLines(lines)
    ensures SplitCrLf(JoinLines(lines)) == lines
  {
    if |lines| == 1 {
      SplitCrLfLast(lines[0]);
    } else {
      SplitCrLfFirst(lines[0], JoinLines(lines[1..]));
      SplitCrLfLines(lines[1..]);
    }
  }

  lemma BlankBytes(b: seq<Byte>, i: nat)
    ensures BlankAt(b, i) <==> i + 4 <= |b| && b[i] == CR && b[i + 1] == LF && b[i + 2] == CR && b[i + 3] == LF
  {
    if i + 4 <= |b| {
      var four := b[i..i + 4];
      assert four[0] == b[i] && four[1] == b[i + 1] && four[2] == b[i + 2] && four[3] == b[i + 3];
    }
  }

  /** The first blank line comes right after the last header line. */
  lemma {:induction false} BlankAfterLines(lines: seq<seq<Byte>>, i: nat)
    requires |lines| > 0 && AllLines(lines)
    ensures BlankAt(JoinLines(lines) + BLANK, i) <==> i == |JoinLines(lines)|
  {
    var b := JoinLines(lines) + BLANK;
    BlankBytes(b, i);
    if |lines| == 1 {
      if i < |lines[0]| { assert b[i] == lines[0][i]; }
    } else {
      var n, rest := |lines[0]|, JoinLines(lines[1..]) + BLANK;
      assert b == lines[0] + (CRLF + rest);
      assert OneLine(lines[1]) && rest[0] == lines[1][0];
      if i < n {
        assert b[i] == lines[0][i];
      } else if i < n + 2 {
        assert b[n + 1] == LF && b[n + 2] == rest[0];
      } else {
        BlankAfterLines(lines[1..], i - n - 2);
        BlankBytes(rest, i - n - 2);
        assert b[n + 2..] == rest;
      }
    }
  }

  lemma HeadersEndThere(lines: seq<seq<Byte>>)
    requires |lines| > 0 && AllLines(lines)
    ensures FindBlank(JoinLines(lines) + BLANK, 0) == Some(|JoinLines(lines)|)
  {
    var b := JoinLines(lines) + BLANK;
    BlankAfterLines(lines, |JoinLines(lines)|);
    var r := FindBlank(b, 0);
    if r.Some? { BlankAfterLines(lines, r.value); }
  }

  // ---------------------------------------------------------------- the fast reader

  predicate StartsWith(b: seq<Byte>, prefix: seq<Byte>) { |b| >= |prefix| && b[..|prefix|] == prefix }

  predicate IsLengthLine(line: seq<Byte>) {
    |line| >= |LENGTH_NAME| + 1 && SameFolded(line[..|LENGTH_NAME| + 1], LENGTH_NAME + [COLON])
  }

  /** The first Content-Length among these lines. */
  function FastLength(lines: seq<seq<Byte>>): Result<Option<nat>> {
    if |lines| == 0 then Ok(None)
    else
      var line := Trim(lines[0]);
      if IsLengthLine(line) then
        match Number(Trim(line[|LENGTH_NAME| + 1..]), MAX_LENGTH)
        case Err => Err
        case Ok(n) => Ok(Some(n))
      else FastLength(lines[1..])
  }

  /** Status and body length when the status line has its usual shape and a length is given. */
  function FastHeaders(b: seq<Byte>): Result<Option<(nat, nat)>> {
    var lines := SplitLf(b);
    var status := Trim(lines[0]);
    if |status| < 12 || !StartsWith(status, HTTP1) || status[8] != SPACE then Ok(None)
    else
      match Number(status[9..12], MAX_STATUS)
      case Err => Err
      case Ok(code) =>
        match FastLength(lines[1..])
        case Err => Err
        case Ok(None) => Ok(None)
        case Ok(Some(n)) => Ok(Some((code, n)))
  }

  method ParseHeadersFast(b: seq<Byte>) returns (r: Result<Option<(nat, nat)>>)
    ensures r == FastHeaders(b)
  {
    var lines := SplitLf(b);
    var status := Trim(lines[0]);
    if |status| < 12 || !StartsWith(status, HTTP1) || status[8] != SPACE {
      return Ok(None);
    }
    var code := Number(status[9..12], MAX_STATUS);
    if code.Err? {
      return Err;
    }
    for k := 1 to |lines|
      invariant FastLength(lines[1..]) == FastLength(lines[k..])
    {
      var line := Trim(lines[k]);
      assert lines[k..][0] == lines[k] && lines[k..][1..] == lines[k + 1..];
      if IsLengthLine(line) {
        var n := Number(Trim(line[|LENGTH_NAME| + 1..]), MAX_LENGTH);
        return if n.Err? then Err else Ok(Some((code.value, n.value)));
      }
    }
    return Ok(None);
  }

  // ---------------------------------------------------------------- the generic reader

  function Word(b: seq<Byte>): (w: seq<Byte>)
    ensures |w| <= |b|
  {
    if |b| == 0 || WhiteStart(b) > 0 then [] else [b[0]] + Word(b[1..])
  }

  function StatusOf(line: seq<Byte>): Result<nat> {
    var b := SkipWhite(line);
    var proto := Word(b);
    if !StartsWith(proto, HTTP1) then Err
    else
      var code := Word(SkipWhite(b[|proto|..]));
      if |code| == 0 then Err else Number(code, MAX_STATUS)
  }

  /** Where a line's first colon is. */
  function ColonAt(line: seq<Byte>): (r: Option<nat>)
    ensures r.Some? ==> r.value < |line| && line[r.value] == COLON && forall k | 0 <= k < r.value :: line[k] != COLON
    ensures r.None? ==> forall k | 0 <= k < |line| :: line[k] != COLON
  {
    if |line| == 0 then None
    else if line[0] == COLON then Some(0)
    else match ColonAt(line[1..]) case None => None case Some(k) => Some(k + 1)
  }

  /** The length after one more line: a Content-Length replaces an earlier one. */
  function GenericLine(line: seq<Byte>, sofar: nat): Result<nat> {
    match ColonAt(line)
    case None => Ok(sofar)
    case Some(k) =>
      if SameFolded(line[..k], LENGTH_NAME) then Number(TrimText(line[k + 1..]), MAX_LENGTH) else Ok(sofar)
  }

  function GenericLength(lines: seq<seq<Byte>>, sofar: nat): Result<nat> {
    if |lines| == 0 then Ok(sofar)
    else
      match GenericLine(lines[0], sofar)
      case Err => Err
      case Ok(n) => GenericLength(lines[1..], n)
  }

  /** `isText` says which byte strings are valid text. */
  function GenericHeaders(b: seq<Byte>, isText: seq<Byte> -> bool): Result<(nat, nat)> {
    if !isText(b) then Err
    else
      var lines := SplitCrLf(b);
      match StatusOf(lines[0])
      case Err => Err
      case Ok(code) =>
        match GenericLength(lines[1..], 0)
        case Err => Err
        case Ok(n) => Ok((code, n))
  }

  method ParseHeadersGeneric(b: seq<Byte>, isText: seq<Byte> -> bool) returns (r: Result<(nat, nat)>)
    ensures r == GenericHeaders(b, isText)
  {
    if !isText(b) {
      return Err;
    }
    var lines := SplitCrLf(b);
    var code := StatusOf(lines[0]);
    if code.Err? {
      return Err;
    }
    var length := 0;
    for k := 1 to |lines|
      invariant GenericLength(lines[1..], 0) == GenericLength(lines[k..], length)
    {
      assert lines[k..][0] == lines[k] && lines[k..][1..] == lines[k + 1..];
      var n := GenericLine(lines[k], length);
      if n.Err? {
        return Err;
      }
      length := n.value;
    }
    return Ok((code.value, length));
  }

  /** The parser tries the fast reader first and asks the generic one when that does not answer. */
  function ReadHeaders(b: seq<Byte>, isText: seq<Byte> -> bool): Result<(nat, nat)> {
    match FastHeaders(b)
    case Err => Err
    case Ok(Some(h)) => Ok(h)
    case Ok(None) => GenericHeaders(b, isText)
  }

  // ---------------------------------------------------------------- well-formed headers

  /** A header field: name, and value between optional blanks. */
  datatype Field = Field(name: seq<Byte>, before: seq<Byte>, value: seq<Byte>, after: seq<Byte>) {
    predicate Valid() {
      && |name| > 0 && (forall k | 0 <= k < |name| :: name[k] != COLON && !IsWhite(name[k]))
      && Pad(before) && Pad(after)
      && (forall k | 0 <= k < |value| :: value[k] != CR && value[k] != LF)
      && (|value| > 0 ==> !IsBlank(value[0]) && !IsBlank(value[|value| - 1]))
    }

    function Text(): seq<Byte> { before + value + after }
    function Line(): seq<Byte> { name + ([COLON] + Text()) }
    predicate IsLength() { SameFolded(name, LENGTH_NAME) }

    /** The length as the fast reader reads it, and as the generic one does. */
    function Length(): Result<nat> { Number(value, MAX_LENGTH) }
    function TextLength(): Result<nat> { Number(TrimText(value), MAX_LENGTH) }
  }

  predicate Pad(b: seq<Byte>) { forall k | 0 <= k < |b| :: b[k] == SPACE || b[k] == 9 }

  /** A status line with a three-byte code; a space may follow it, and a reason, perhaps empty. */
  datatype Status = Status(version: Byte, code: seq<Byte>, reason: Option<seq<Byte>>) {
    predicate Valid() {
      && !IsWhite(version) && |code| == 3 && (forall k | 0 <= k < 3 :: WhiteStart(code[k..]) == 0)
      && forall k | 0 <= k < |Tail()| :: Tail()[k] != CR && Tail()[k] != LF
    }

    function Tail(): seq<Byte> { if reason.None? then [] else [SPACE] + reason.value }

    function Line(): (line: seq<Byte>)
      requires Valid()
      ensures |line| >= 12
    {
      HTTP1 + [version, SPACE] + code + Tail()
    }
  }

  predicate AllFields(fields: seq<Field>) { |fields| > 0 ==> fields[0].Valid() && AllFields(fields[1..]) }

  function FieldLines(fields: seq<Field>): (r: seq<seq<Byte>>)
    ensures |r| == |fields|
  {
    if |fields| == 0 then [] else [fields[0].Line()] + FieldLines(fields[1..])
  }

  function HeaderBlock(status: Status, fields: seq<Field>): seq<Byte>
    requires status.Valid()
  {
    JoinLines([status.Line()] + FieldLines(fields))
  }

  /** The first Content-Length among the fields, as the fast reader reads it, and the last one, as the
      generic reader does, if it can read all of them. */
  function FirstLength(fields: seq<Field>): Result<Option<nat>> {
    if |fields| == 0 then Ok(None)
    else if fields[0].IsLength() then
      match fields[0].Length() case Err => Err case Ok(n) => Ok(Some(n))
    else FirstLength(fields[1..])
  }

  function LastLength(fields: seq<Field>, sofar: nat): Result<nat> {
    if |fields| == 0 then Ok(sofar)
    else if fields[0].IsLength() then
      match fields[0].TextLength() case Err => Err case Ok(n) => LastLength(fields[1..], n)
    else LastLength(fields[1..], sofar)
  }

  // ---------------------------------------------------------------- trimming

  lemma {:induction false} TrimLeftPad(pad: seq<Byte>, rest: seq<Byte>)
    requires (forall k | 0 <= k < |pad| :: IsBlank(pad[k])) && (|rest| > 0 ==> !IsBlank(rest[0]))
    ensures TrimLeft(pad + rest) == rest
  {
    if |pad| == 0 {
      assert pad + rest == rest;
    } else {
      assert (pad + rest)[1..] == pad[1..] + rest;
      TrimLeftPad(pad[1..], rest);
    }
  }

  lemma {:induction false} TrimRightPad(rest: seq<Byte>, pad: seq<Byte>)
    requires (forall k | 0 <= k < |pad| :: IsBlank(pad[k])) && (|rest| > 0 ==> !IsBlank(rest[|rest| - 1]))
    ensures TrimRight(rest + pad) == rest
  {
    if |pad| == 0 {
      assert rest + pad == rest;
    } else {
      assert (rest + pad)[..|rest + pad| - 1] == rest + pad[..|pad| - 1];
      TrimRightPad(rest, pad[..|pad| - 1]);
    }
  }

  lemma TrimPadded(before: seq<Byte>, value: seq<Byte>, after: seq<Byte>)
    requires (forall k | 0 <= k < |before| :: IsBlank(before[k])) && (forall k | 0 <= k < |after| :: IsBlank(after[k]))
    requires |value| > 0 ==> !IsBlank(value[0]) && !IsBlank(value[|value| - 1])
    ensures Trim(before + value + after) == value
  {
    if |value| == 0 {
      assert before + value + after == (before + after) + [];
      TrimLeftPad(before + after, []);
    } else {
      assert before + value + after == before + (value + after);
      TrimLeftPad(before, value + after);
      TrimRightPad(value, after);
    }
  }

  /** Text trims blanks around it away. */
  lemma {:induction false} SkipPad(pad: seq<Byte>, rest: seq<Byte>)
    requires Pad(pad)
    ensures SkipWhite(pad + rest) == SkipWhite(rest)
  {
    if |pad| == 0 {
      assert pad + rest == rest;
    } else {
      assert (pad + rest)[1..] == pad[1..] + rest;
      SkipPad(pad[1..], rest);
    }
  }

  lemma {:induction false} DropPad(rest: seq<Byte>, pad: seq<Byte>)
    requires Pad(pad)
    ensures DropWhite(rest + pad) == DropWhite(rest)
  {
    if |pad| == 0 {
      assert rest + pad == rest;
    } else {
      assert (rest + pad)[..|rest + pad| - 1] == rest + pad[..|pad| - 1];
      DropPad(rest, pad[..|pad| - 1]);
    }
  }

  /** A blank does not complete a white-space character. */
  lemma {:induction false} SkipBeforePad(b: seq<Byte>, pad: seq<Byte>)
    requires Pad(pad)
    ensures SkipWhite(b + pad) == if |SkipWhite(b)| == 0 then [] else SkipWhite(b) + pad
  {
    if |b| == 0 {
      assert b + pad == pad + [];
      SkipPad(pad, []);
    } else {
      var n := WhiteStart(b);
      assert WhiteStart(b + pad) == n;
      if n > 0 {
        assert (b + pad)[n..] == b[n..] + pad;
        SkipBeforePad(b[n..], pad);
      }
    }
  }

  lemma TextPadded(before: seq<Byte>, value: seq<Byte>, after: seq<Byte>)
    requires Pad(before) && Pad(after)
    ensures TrimText(before + value + after) == TrimText(value)
  {
    assert before + value + after == before + (value + after);
    SkipPad(before, value + after);
    SkipBeforePad(value, after);
    DropPad(SkipWhite(value), after);
  }

  // ---------------------------------------------------------------- numbers have no white space at their ends

  lemma {:induction false} DigitsFirst(b: seq<Byte>, max: nat)
    requires |b| > 0 && Digits(b, max).Ok?
    ensures 48 <= b[0] <= 57 && 48 <= b[|b| - 1] <= 57
  {
    if |b| == 1 {
      assert b[..0] == [];
    } else {
      DigitsFirst(b[..|b| - 1], max);
    }
  }

  lemma NumberIsTrimmed(b: seq<Byte>, max: nat)
    requires Number(b, max).Ok?
    ensures TrimText(b) == b
  {
    var digits := if b[0] == 43 then b[1..] else b;
    DigitsFirst(digits, max);
    assert digits[|digits| - 1] == b[|b| - 1];
  }

  // ---------------------------------------------------------------- reading a well-formed field

  lemma FieldIsLine(f: Field)
    requires f.Valid()
    ensures OneLine(f.Line())
  {
    forall k | 0 <= k < |f.before| ensures f.before[k] != CR && f.before[k] != LF {}
    forall k | 0 <= k < |f.after| ensures f.after[k] != CR && f.after[k] != LF {}
  }

  lemma {:induction false} FieldsAreLines(fields: seq<Field>)
    requires AllFields(fields)
    ensures AllLines(FieldLines(fields))
  {
    if |fields| == 0 {
    } else {
      FieldIsLine(fields[0]);
      FieldsAreLines(fields[1..]);
    }
  }

  /** A line is a length line exactly when its name is that of the length, whatever its case. */
  lemma LengthLineIsName(name: seq<Byte>, rest: seq<Byte>)
    requires forall k | 0 <= k < |name| :: name[k] != COLON
    ensures IsLengthLine(name + ([COLON] + rest)) <==> SameFolded(name, LENGTH_NAME)
  {
    var line := name + ([COLON] + rest);
    var want := LENGTH_NAME + [COLON];
    if SameFolded(name, LENGTH_NAME) {
      assert line[..15] == name + [COLON];
    } else if |line| >= 15 {
      var head := line[..15];
      if |name| > 14 {
        assert head[14] == name[14] && want[14] == COLON;
      } else if |name| < 14 {
        assert head[|name|] == COLON && Lower(want[|name|]) != COLON;
      } else {
        assert head[..14] == name;
        assert exists k :: 0 <= k < 14 && Lower(name[k]) != Lower(LENGTH_NAME[k]);
        var k :| 0 <= k < 14 && Lower(name[k]) != Lower(LENGTH_NAME[k]);
        assert head[k] == name[k] && want[k] == LENGTH_NAME[k];
      }
    }
  }

  /** A field's line without the blanks at its end. */
  lemma FastTrim(name: seq<Byte>, text: seq<Byte>, dropped: seq<Byte>)
    requires |name| > 0 && !IsBlank(name[0]) && (forall k | 0 <= k < |dropped| :: IsBlank(dropped[k]))
    requires |text| > 0 ==> !IsBlank(text[|text| - 1])
    ensures Trim(name + ([COLON] + text) + dropped) == name + ([COLON] + text)
  {
    var core := name + ([COLON] + text);
    assert (core + dropped)[0] == name[0];
    TrimRightPad(core, dropped);
  }

  lemma FastValue(f: Field, text: seq<Byte>, t: seq<Byte>)
    requires f.Valid() && text == (if |f.value| == 0 then [] else f.before + f.value) && t == f.name + ([COLON] + text)
    ensures IsLengthLine(t) <==> f.IsLength()
    ensures f.IsLength() ==> Number(Trim(t[|LENGTH_NAME| + 1..]), MAX_LENGTH) == f.Length()
  {
    LengthLineIsName(f.name, text);
    if f.IsLength() {
      assert t[15..] == text;
      var pad := if |f.value| == 0 then [] else f.before;
      TrimPadded(pad, f.value, []);
      assert text == pad + f.value + [];
    }
  }

  /** What the fast reader sees of a field's line, with or without a carriage return behind it. */
  lemma FastField(f: Field, tail: seq<Byte>)
    requires f.Valid() && (tail == [] || tail == [CR])
    ensures var t := Trim(f.Line() + tail);
            && (IsLengthLine(t) <==> f.IsLength())
            && (f.IsLength() ==> Number(Trim(t[|LENGTH_NAME| + 1..]), MAX_LENGTH) == f.Length())
  {
    var text := if |f.value| == 0 then [] else f.before + f.value;
    var dropped := if |f.value| == 0 then f.before + f.after + tail else f.after + tail;
    assert f.Line() + tail == f.name + ([COLON] + text) + dropped;
    FastTrim(f.name, text, dropped);
    FastValue(f, text, f.name + ([COLON] + text));
  }

  lemma {:induction false} FirstColon(name: seq<Byte>, rest: seq<Byte>)
    requires forall k | 0 <= k < |name| :: name[k] != COLON
    ensures ColonAt(name + ([COLON] + rest)) == Some(|name|)
  {
    var line := name + ([COLON] + rest);
    assert line[|name|] == COLON;
    assert forall k | 0 <= k < |name| :: line[k] == name[k];
  }

  lemma GenericField(f: Field, sofar: nat)
    requires f.Valid()
    ensures GenericLine(f.Line(), sofar) == if f.IsLength() then f.TextLength() else Ok(sofar)
  {
    FirstColon(f.name, f.Text());
    assert f.Line()[..|f.name|] == f.name && f.Line()[|f.name| + 1..] == f.Text();
    TextPadded(f.before, f.value, f.after);
  }

  lemma {:induction false} FastFields(fields: seq<Field>)
    requires AllFields(fields)
    ensures FastLength(WithCr(FieldLines(fields))) == FirstLength(fields)
  {
    if |fields| == 0 {
    } else {
      var lines := FieldLines(fields);
      assert lines[1..] == FieldLines(fields[1..]);
      FastField(fields[0], if |fields| == 1 then [] else [CR]);
      FastFields(fields[1..]);
      if |fields| == 1 {
        assert fields[0].Line() + [] == fields[0].Line();
        assert WithCr(lines)[1..] == [] && FirstLength(fields[1..]) == Ok(None);
      } else {
        assert WithCr(lines)[1..] == WithCr(lines[1..]);
      }
    }
  }

  lemma {:induction false} GenericFields(fields: seq<Field>, sofar: nat)
    requires AllFields(fields)
    ensures GenericLength(FieldLines(fields), sofar) == LastLength(fields, sofar)
  {
    if |fields| == 0 {
    } else {
      GenericField(fields[0], sofar);
      assert FieldLines(fields)[1..] == FieldLines(fields[1..]);
      if fields[0].IsLength() {
        if fields[0].TextLength().Ok? { GenericFields(fields[1..], fields[0].TextLength().value); }
      } else {
        GenericFields(fields[1..], sofar);
      }
    }
  }

  // ---------------------------------------------------------------- reading the status line

  lemma {:induction false} TrimRightKeeps(b: seq<Byte>, n: nat)
    requires 0 < n <= |b| && !IsBlank(b[n - 1])
    ensures |TrimRight(b)| >= n && TrimRight(b)[..n] == b[..n]
  {
    if |b| > n {
      if IsBlank(b[|b| - 1]) {
        TrimRightKeeps(b[..|b| - 1], n);
        assert b[..|b| - 1][..n] == b[..n];
      }
    }
  }

  lemma CodeIsBare(s: Status)
    requires s.Valid()
    ensures forall k | 0 <= k < 3 :: !IsWhite(s.code[k])
  {
    forall k | 0 <= k < 3 ensures !IsWhite(s.code[k]) { assert s.code[k..][0] == s.code[k]; }
  }

  lemma FastStatus(s: Status, tail: seq<Byte>)
    requires s.Valid() && (tail == [] || tail == [CR])
    ensures var t := Trim(s.Line() + tail);
            |t| >= 12 && StartsWith(t, HTTP1) && t[8] == SPACE && t[9..12] == s.code
  {
    CodeIsBare(s);
    var b := s.Line() + tail;
    var head := HTTP1 + [s.version, SPACE] + s.code;
    assert b[..12] == head;
    assert b[0] == head[0] && b[11] == head[11] && head[11] == s.code[2];
    assert TrimLeft(b) == b;
    TrimRightKeeps(b, 12);
    var t := TrimRight(b);
    assert t[..7] == t[..12][..7] == head[..7] == HTTP1;
    assert t[8] == t[..12][8] == head[8];
    assert t[9..12] == t[..12][9..12] == head[9..12] == s.code;
  }

  /** A word ends before white space. */
  lemma {:induction false} WordEnds(w: seq<Byte>, rest: seq<Byte>)
    requires (forall k | 0 <= k < |w| :: WhiteStart(w[k..]) == 0) && (|rest| > 0 ==> rest[0] == SPACE)
    ensures Word(w + rest) == w
  {
    if |w| == 0 {
      assert w + rest == rest;
    } else {
      assert w[0..] == w && WhiteStart(w + rest) == 0;
      assert (w + rest)[1..] == w[1..] + rest;
      forall k | 0 <= k < |w[1..]| ensures WhiteStart(w[1..][k..]) == 0 { assert w[1..][k..] == w[k + 1..]; }
      WordEnds(w[1..], rest);
    }
  }

  lemma GenericStatus(s: Status)
    requires s.Valid()
    ensures StatusOf(s.Line()) == Number(s.code, MAX_STATUS)
  {
    var proto := HTTP1 + [s.version];
    var reason := s.Tail();
    var line := s.Line();
    assert line == proto + ([SPACE] + (s.code + reason));
    assert line[0] == proto[0] && SkipWhite(line) == line;
    forall k | 0 <= k < |proto| ensures WhiteStart(proto[k..]) == 0 { assert proto[k..][0] == proto[k]; }
    WordEnds(proto, [SPACE] + (s.code + reason));
    assert proto[..7] == HTTP1;
    assert line[8..] == [SPACE] + (s.code + reason);
    SkipPad([SPACE], s.code + reason);
    assert s.code[0..] == s.code && WhiteStart(s.code + reason) == 0;
    WordEnds(s.code, reason);
  }

  // ---------------------------------------------------------------- both readers

  lemma BlockLines(status: Status, fields: seq<Field>)
    requires status.Valid() && AllFields(fields)
    ensures AllLines([status.Line()] + FieldLines(fields))
  {
    var line, lines := status.Line(), [status.Line()] + FieldLines(fields);
    FieldsAreLines(fields);
    CodeIsBare(status);
    assert lines[1..] == FieldLines(fields);
    forall k | 0 <= k < |line| ensures line[k] != CR && line[k] != LF {
      assert line == (HTTP1 + [status.version, SPACE] + status.code) + status.Tail();
    }
  }

  /** The fast reader takes the first Content-Length ... */
  lemma FastReads(status: Status, fields: seq<Field>)
    requires status.Valid() && AllFields(fields)
    ensures FastHeaders(HeaderBlock(status, fields)) ==
            match Number(status.code, MAX_STATUS)
            case Err => Err
            case Ok(code) =>
              match FirstLength(fields)
              case Err => Err
              case Ok(None) => Ok(None)
              case Ok(Some(n)) => Ok(Some((code, n)))
  {
    var lines := [status.Line()] + FieldLines(fields);
    BlockLines(status, fields);
    SplitLfLines(lines);
    assert lines[1..] == FieldLines(fields);
    var split := WithCr(lines);
    if |fields| == 0 {
      assert split[0] == status.Line() + [] && split[1..] == WithCr(FieldLines(fields));
      FastStatus(status, []);
    } else {
      assert split[0] == status.Line() + [CR] && split[1..] == WithCr(FieldLines(fields));
      FastStatus(status, [CR]);
    }
    FastFields(fields);
  }

  /** ... and the generic one the last. */
  lemma GenericReads(status: Status, fields: seq<Field>, isText: seq<Byte> -> bool)
    requires status.Valid() && AllFields(fields) && isText(HeaderBlock(status, fields))
    ensures GenericHeaders(HeaderBlock(status, fields), isText) ==
            match Number(status.code, MAX_STATUS)
            case Err => Err
            case Ok(code) =>
              match LastLength(fields, 0)
              case Err => Err
              case Ok(n) => Ok((code, n))
  {
    var lines := [status.Line()] + FieldLines(fields);
    BlockLines(status, fields);
    SplitCrLfLines(lines);
    assert lines[0] == status.Line() && lines[1..] == FieldLines(fields);
    GenericStatus(status);
    GenericFields(fields, 0);
  }

  lemma {:induction false} NoLength(fields: seq<Field>, sofar: nat)
    requires FirstLength(fields) == Ok(None)
    ensures LastLength(fields, sofar) == Ok(sofar)
  {
    if |fields| == 0 {
    } else {
      NoLength(fields[1..], sofar);
    }
  }

  /** Trying the fast reader first changes nothing if and only if the last Content-Length, trimmed as text,
      says what the first one, as it stands, says. */
  lemma ReadersAgreeIff(status: Status, fields: seq<Field>, isText: seq<Byte> -> bool)
    requires status.Valid() && AllFields(fields) && isText(HeaderBlock(status, fields))
             && Number(status.code, MAX_STATUS).Ok?
    ensures ReadHeaders(HeaderBlock(status, fields), isText) == GenericHeaders(HeaderBlock(status, fields), isText) <==>
            match FirstLength(fields)
            case Err => LastLength(fields, 0) == Err
            case Ok(None) => true
            case Ok(Some(n)) => LastLength(fields, 0) == Ok(n)
  {
    FastReads(status, fields);
    GenericReads(status, fields, isText);
    if FirstLength(fields) == Ok(None) { NoLength(fields, 0); }
  }

  /** The value of the first Content-Length. */
  function FirstValue(fields: seq<Field>): Option<seq<Byte>> {
    if |fields| == 0 then None else if fields[0].IsLength() then Some(fields[0].value) else FirstValue(fields[1..])
  }

  /** The fast reader alone refuses only a value with white space at an end that is not a blank. */
  lemma {:induction false} OnlyWhiteMisleads(fields: seq<Field>, sofar: nat)
    requires AllFields(fields) && FirstLength(fields) == Err && LastLength(fields, sofar).Ok?
    ensures FirstValue(fields).Some? && TrimText(FirstValue(fields).value) != FirstValue(fields).value
  {
    if |fields| == 0 || fields[0].IsLength() {
    } else {
      OnlyWhiteMisleads(fields[1..], sofar);
    }
  }

  /** With one Content-Length the readers agree if and only if it has no such white space, or
      is not a number without it. */
  lemma OneLengthAgreesIff(status: Status, f: Field, isText: seq<Byte> -> bool)
    requires status.Valid() && AllFields([f]) && f.IsLength()
    requires isText(HeaderBlock(status, [f])) && Number(status.code, MAX_STATUS).Ok?
    ensures ReadHeaders(HeaderBlock(status, [f]), isText) == GenericHeaders(HeaderBlock(status, [f]), isText) <==>
            TrimText(f.value) == f.value || f.TextLength() == Err
  {
    ReadersAgreeIff(status, [f], isText);
    assert [f][1..] == [];
    if f.Length().Ok? {
      NumberIsTrimmed(f.value, MAX_LENGTH);
    }
  }

  /** The value 40 with a non-breaking space behind it. */
  const PADDED_LENGTH: Field := Field(LENGTH_NAME, [SPACE], [52, 48, 0xC2, 0xA0], [])

  /** The generic reader reads 40 where the fast reader fails. */
  lemma PaddedLengthMisleads(status: Status, isText: seq<Byte> -> bool)
    requires status.Valid() && isText(HeaderBlock(status, [PADDED_LENGTH])) && Number(status.code, MAX_STATUS).Ok?
    ensures PADDED_LENGTH.Valid()
    ensures ReadHeaders(HeaderBlock(status, [PADDED_LENGTH]), isText) == Err
    ensures GenericHeaders(HeaderBlock(status, [PADDED_LENGTH]), isText) ==
            Ok((Number(status.code, MAX_STATUS).value, 40))
  {
    var f, v := PADDED_LENGTH, PADDED_LENGTH.value;
    assert v[..2] == [52, 48] && [52, 48][..1] == [52] && [52][..0] == [];
    assert v[..3][..2] == [52, 48];
    assert Digits([52, 48], MAX_LENGTH) == Ok(40);
    assert SkipWhite(v) == v && DropWhite(v) == DropWhite([52, 48]) == [52, 48];
    assert f.TextLength() == Ok(40) && f.Length() == Err;
    assert [f][1..] == [];
    FastReads(status, [f]);
    GenericReads(status, [f], isText);
  }

  // ---------------------------------------------------------------- the body

  /** "RBA1". */
  const ACK_MAGIC: seq<Byte> := [82, 66, 65, 49]
  const ACK_LEN: nat := 40

  predicate IsWord(n: int) { 0 <= n < 0x1_0000_0000 }

  /** Counts fit their words. */
  predicate AckFits(a: Ack) {
    && IsWord(a.recordCount) && IsWord(a.okCount) && IsWord(a.usedL2)
    && |a.decisions| == 5 && forall k | 0 <= k < 5 :: IsWord(a.decisions[k])
  }

  function Words(ws: seq<int>): (b: seq<Byte>)
    requires forall k | 0 <= k < |ws| :: IsWord(ws[k])
    ensures |b| == 4 * |ws|
  {
    if |ws| == 0 then [] else assert IsWord(ws[0]); Le32(ws[0]) + Words(ws[1..])
  }

  function EncodeAck(a: Ack): (b: seq<Byte>)
    requires AckFits(a)
    ensures |b| == ACK_LEN
  {
    ACK_MAGIC + Le16(1) + Le16(0) + Words([a.recordCount, a.okCount, a.usedL2] + a.decisions)
  }

  function WordAt(b: seq<Byte>, off: nat): int
    requires off + 4 <= |b|
  {
    FromLe32(b[off..off + 4])
  }

  function DecodeAck(b: seq<Byte>): Option<Ack> {
    if |b| != ACK_LEN || b[..4] != ACK_MAGIC || b[4] + 256 * b[5] != 1 then None
    else Some(Ack(WordAt(b, 8), WordAt(b, 12), WordAt(b, 16),
        [WordAt(b, 20), WordAt(b, 24), WordAt(b, 28), WordAt(b, 32), WordAt(b, 36)]))
  }

  /** Four bytes, the least significant first. */
  function LittleEndian(b: seq<Byte>, off: nat): int
    requires off + 4 <= |b|
  {
    b[off] + 0x100 * b[off + 1] + 0x1_0000 * b[off + 2] + 0x100_0000 * b[off + 3]
  }

  /** Forty bytes are an acknowledgement exactly when they start with RBA1 and version 1, whatever the next two say; its
      counts are the words from byte 8 on: records, successes, level-two rows, and the five decisions. */
  lemma AckLayout(b: seq<Byte>)
    requires forall k | 0 <= k < |b| :: 0 <= b[k] < 0x100
    ensures DecodeAck(b).Some? <==>
            |b| == 40 && b[0] == 'R' as int && b[1] == 'B' as int && b[2] == 'A' as int && b[3] == '1' as int
            && b[4] == 1 && b[5] == 0
    ensures DecodeAck(b).Some? ==>
              var a := DecodeAck(b).value;
              && a.recordCount == LittleEndian(b, 8) && a.okCount == LittleEndian(b, 12)
              && a.usedL2 == LittleEndian(b, 16) && |a.decisions| == 5
              && forall k: nat | k < 5 :: a.decisions[k] == LittleEndian(b, 20 + 4 * k)
  {
    if |b| == 40 {
      assert b[..4] == [b[0], b[1], b[2], b[3]];
      forall off: nat | off + 4 <= 40 ensures WordAt(b, off) == LittleEndian(b, off) {
        assert b[off..off + 4] == [b[off], b[off + 1], b[off + 2], b[off + 3]];
      }
    }
  }

  lemma {:induction false} WordsAt(h: seq<Byte>, ws: seq<int>, k: nat)
    requires (forall j | 0 <= j < |ws| :: IsWord(ws[j])) && k < |ws|
    ensures WordAt(h + Words(ws), |h| + 4 * k) == ws[k]
    decreases k
  {
    var b := h + Words(ws);
    assert IsWord(ws[0]);
    if k == 0 {
      assert b[|h|..|h| + 4] == Le32(ws[0]);
      Le32RoundTrip(ws[0]);
    } else {
      assert b == (h + Le32(ws[0])) + Words(ws[1..]);
      WordsAt(h + Le32(ws[0]), ws[1..], k - 1);
    }
  }

  /** Decoding inverts encoding. */
  lemma AckRoundTrip(a: Ack)
    requires AckFits(a)
    ensures DecodeAck(EncodeAck(a)) == Some(a)
  {
    var b, h, ws := EncodeAck(a), ACK_MAGIC + Le16(1) + Le16(0), [a.recordCount, a.okCount, a.usedL2] + a.decisions;
    assert b[..4] == ACK_MAGIC && b[4] == 1 && b[5] == 0;
    forall k: nat | k < 8 ensures WordAt(b, 8 + 4 * k) == ws[k] { WordsAt(h, ws, k); }
    assert WordAt(b, 8 + 4 * 0) == ws[0] && WordAt(b, 8 + 4 * 1) == ws[1] && WordAt(b, 8 + 4 * 2) == ws[2]
           && WordAt(b, 8 + 4 * 3) == ws[3];
    assert WordAt(b, 8 + 4 * 4) == ws[4] && WordAt(b, 8 + 4 * 5) == ws[5] && WordAt(b, 8 + 4 * 6) == ws[6]
           && WordAt(b, 8 + 4 * 7) == ws[7];
    assert a.decisions == [ws[3], ws[4], ws[5], ws[6], ws[7]];
  }

  /** A response with well-formed headers whose first Content-Length is that of an encoded acknowledgement
      is one frame: that acknowledgement. */
  lemma EncodedResponseIsWhole(status: Status, fields: seq<Field>, code: nat, ack: Ack, isText: seq<Byte> -> bool)
    requires status.Valid() && AllFields(fields) && Number(status.code, MAX_STATUS) == Ok(code) && AckFits(ack)
    requires FirstLength(fields) == Ok(Some(ACK_LEN))
    ensures var bytes := HeaderBlock(status, fields) + BLANK + EncodeAck(ack);
            ResponseFramer(HeaderReader(isText), DecodeAck)(bytes) == Got((code, ack), |bytes|)
  {
    BlockLines(status, fields);
    HeadersEndThere([status.Line()] + FieldLines(fields));
    FastReads(status, fields);
    AckRoundTrip(ack);
    WholeResponse(HeaderReader(isText), DecodeAck, HeaderBlock(status, fields), EncodeAck(ack), code, ack);
  }

  // ---------------------------------------------------------------- end to end

  /** What a server sends for one batch. */
  datatype Reply = Reply(status: Status, fields: seq<Field>, ack: Ack) {
    /** Well-formed headers that announce an encoded acknowledgement. */
    predicate Valid() {
      && status.Valid() && AllFields(fields) && Number(status.code, MAX_STATUS).Ok? && AckFits(ack)
      && FirstLength(fields) == Ok(Some(ACK_LEN))
    }

    function Bytes(): seq<Byte>
      requires status.Valid() && AckFits(ack)
    {
      HeaderBlock(status, fields) + BLANK + EncodeAck(ack)
    }

    function Says(): Answer
      requires Number(status.code, MAX_STATUS).Ok?
    {
      (Number(status.code, MAX_STATUS).value, ack)
    }
  }

  predicate AllValid(replies: seq<Reply>) { |replies| > 0 ==> replies[0].Valid() && AllValid(replies[1..]) }

  /** The replies, one after the other. */
  function Sent(replies: seq<Reply>): seq<Byte>
    requires AllValid(replies)
  {
    if |replies| == 0 then [] else replies[0].Bytes() + Sent(replies[1..])
  }

  function Told(replies: seq<Reply>): seq<Answer>
    requires AllValid(replies)
  {
    if |replies| == 0 then [] else [replies[0].Says()] + Told(replies[1..])
  }

  function Wholes(replies: seq<Reply>): seq<Whole<Answer>>
    requires AllValid(replies)
  {
    if |replies| == 0 then [] else [Whole(replies[0].Bytes(), replies[0].Says())] + Wholes(replies[1..])
  }

  function HeaderReader(isText: seq<Byte> -> bool): HeaderParse { (b: seq<Byte>) => ReadHeaders(b, isText) }

  lemma {:induction false} RepliesAreWhole(replies: seq<Reply>, isText: seq<Byte> -> bool)
    requires AllValid(replies)
    ensures AllWhole(ResponseFramer(HeaderReader(isText), DecodeAck), Wholes(replies))
    ensures Joined(Wholes(replies)) == Sent(replies) && ItemsOf(Wholes(replies)) == Told(replies)
  {
    if |replies| == 0 {
    } else {
      var r := replies[0];
      EncodedResponseIsWhole(r.status, r.fields, r.Says().0, r.ack, isText);
      RepliesAreWhole(replies[1..], isText);
      assert Wholes(replies)[1..] == Wholes(replies[1..]);
    }
  }

  /** The replies are small enough to be read however they are cut: each one but for its last byte, and a read,
      are within the limit, unless all that is to come is within it. */
  predicate Small(replies: seq<Reply>)
    requires AllValid(replies)
  {
    |replies| > 0 ==>
      && (|replies[0].Bytes()| + READ_SIZE <= MAX_RESPONSE_BYTES + 1 || |Sent(replies)| <= MAX_RESPONSE_BYTES)
      && Small(replies[1..])
  }

  lemma {:induction false} SmallIsRoom(replies: seq<Reply>, isText: seq<Byte> -> bool)
    requires AllValid(replies)
    ensures Small(replies) <==> RoomFor(Wholes(replies), MAX_RESPONSE_BYTES, READ_SIZE)
  {
    if |replies| == 0 {
    } else {
      RepliesAreWhole(replies, isText);
      SmallIsRoom(replies[1..], isText);
      assert Wholes(replies)[1..] == Wholes(replies[1..]);
    }
  }

  /** Any replies, cut into reads anywhere: what is read back is exactly their acknowledgements, in order,
      unless a read fails; and none does if the replies are small. */
  method ReadReplies(input: seq<Read>, isText: seq<Byte> -> bool, ghost replies: seq<Reply>)
    returns (acks: seq<Answer>, ok: bool)
    requires AllValid(replies) && Cutting(input, Sent(replies))
    ensures Framing(ReplyFramer(isText)) && (ok <==> Readable(ReplyFramer(isText), input))
    ensures Small(replies) ==> ok
    ensures ok ==> acks == Told(replies)
    ensures acks <= Told(replies)
  {
    var parser := new ResponseParser(HeaderReader(isText), DecodeAck);
    ResponsesFrame(HeaderReader(isText), DecodeAck);
    RepliesAreWhole(replies, isText);
    SmallIsRoom(replies, isText);
    acks, ok := ReadWellFormed(parser, input, Wholes(replies));
  }

  ghost function ReplyFramer(isText: seq<Byte> -> bool): Framer<Answer> {
    ResponseFramer(HeaderReader(isText), DecodeAck)
  }

  /** Replies are read however they are cut if and only if they are small. */
  lemma RepliesReadIff(replies: seq<Reply>, isText: seq<Byte> -> bool)
    requires AllValid(replies)
    ensures Framing(ReplyFramer(isText))
    ensures (forall input: seq<Read> | Cutting(input, Sent(replies)) :: Readable(ReplyFramer(isText), input)) <==>
            Small(replies)
  {
    ResponsesFrame(HeaderReader(isText), DecodeAck);
    RepliesAreWhole(replies, isText);
    SmallIsRoom(replies, isText);
    CuttingsReadIff(ReplyFramer(isText), Wholes(replies));
  }
}
