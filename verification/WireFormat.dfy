/** The sample line: printed by the firmware (firmware/variance/main.cpp), split by the worker's
    `Reader` (UploadState.py) and parsed by VarMaxState.py. Bytes are characters below 256. */
module WireFormat {

  import opened Options

  type Sample = x: int | 0 <= x < 0x1_0000

  // ---------------------------------------------------------------- the firmware's printer

  function Digit(d: int): char
    requires 0 <= d < 10
  {
    ['0', '1', '2', '3', '4', '5', '6', '7', '8', '9'][d]
  }

  /** `%u`. */
  function Decimal(n: nat): string {
    if n < 10 then [Digit(n)] else Decimal(n / 10) + [Digit(n % 10)]
  }

  /** What `snprintf` keeps of `s` in a buffer of `size` bytes. */
  function Snprintf(size: nat, s: string): string
    requires 0 < size
  {
    if |s| < size then s else s[..size - 1]
  }

  /** The values of a line: " v1,v2,...". */
  function Values(samples: seq<Sample>): string {
    if samples == [] then ""
    else
      var n := |samples| - 1;
      Values(samples[..n]) + (if n == 0 then " " else ",") + Decimal(samples[n])
  }

  function Body(samples: seq<Sample>): string {
    "samples:" + Values(samples)
  }

  function Printed(samples: seq<Sample>): string {
    Body(samples) + "\r\n"
  }

  lemma {:induction false} DecimalLength(n: nat, digits: nat, limit: nat)
    requires 0 < digits && limit == Pow10(digits) && n < limit
    ensures |Decimal(n)| <= digits
  {
    if n >= 10 {
      assert digits > 1;
      DecimalLength(n / 10, digits - 1, Pow10(digits - 1));
    }
  }

  function Pow10(n: nat): nat {
    if n == 0 then 1 else 10 * Pow10(n - 1)
  }

  lemma SampleLength(v: Sample)
    ensures |Decimal(v)| <= 5
  {
    assert Pow10(5) == 100000;
    DecimalLength(v, 5, 100000);
  }

  /** The print loop. The 8-byte buffer never cuts a 16-bit value short. */
  method PrintSamples(samples: seq<Sample>) returns (out: string)
    ensures out == Printed(samples)
  {
    hide Decimal;
    out := "samples:";
    for i := 0 to |samples|
      invariant out == Body(samples[..i])
    {
      assert samples[..i + 1][..i] == samples[..i];
      var buffer := if i == 0 then Snprintf(8, " " + Decimal(samples[i])) else Snprintf(8, "," + Decimal(samples[i]));
      SampleLength(samples[i]);
      out := out + buffer;
    }
    assert samples[..|samples|] == samples;
    out := out + "\r\n";
  }

  // ---------------------------------------------------------------- str(bytes)

  function Hex(d: int): char
    requires 0 <= d < 16
  {
    "0123456789abcdef"[d]
  }

  /** One byte inside `repr(bytes)`, between quotes of kind `quote`. */
  function ReprByte(c: char, quote: char): string {
    var n := c as int % 256;
    if c == quote || c == '\\' then ['\\', c]
    else if c == '\t' then "\\t"
    else if c == '\n' then "\\n"
    else if c == '\r' then "\\r"
    else if 32 <= n < 127 then [c]
    else ['\\', 'x', Hex(n / 16), Hex(n % 16)]
  }

  function ReprBody(data: string, quote: char): string {
    if data == "" then "" else ReprBody(data[..|data| - 1], quote) + ReprByte(data[|data| - 1], quote)
  }

  /** `str(data)` for bytes: double quotes only if there are single ones and no double ones. */
  function Str(data: string): string {
    var quote := if '\'' in data && '\"' !in data then '\"' else '\'';
    ['b', quote] + ReprBody(data, quote) + [quote]
  }

  /** `str(data)[2:-1]`. */
  function Shown(data: string): string {
    Str(data)[2..|Str(data)| - 1]
  }

  /** Escaping byte by byte, whatever its neighbours. */
  function Escape(data: string): string {
    if data == "" then "" else Escape(data[..|data| - 1]) + ReprByte(data[|data| - 1], '\\')
  }

  /** Device text with at most one kind of quote. */
  ghost predicate Plain(data: string) {
    '\'' !in data || '\"' !in data
  }

  lemma {:induction false} ReprIsEscape(data: string, quote: char)
    requires quote !in data
    ensures ReprBody(data, quote) == Escape(data)
  {
    if data != "" {
      ReprIsEscape(data[..|data| - 1], quote);
    }
  }

  lemma ShownIsEscape(data: string)
    requires Plain(data)
    ensures Shown(data) == Escape(data)
  {
    var quote := if '\'' in data && '\"' !in data then '\"' else '\'';
    ReprIsEscape(data, quote);
    assert Str(data) == ['b', quote] + ReprBody(data, quote) + [quote];
  }

  lemma Regrouped(x: string, y: string, z: string)
    ensures x + (y + z) == x + y + z
  {
  }

  lemma {:induction false} EscapeConcat(x: string, y: string)
    ensures Escape(x + y) == Escape(x) + Escape(y)
  {
    if y == "" {
      assert x + y == x;
    } else {
      hide ReprByte;
      assert (x + y)[..|x + y| - 1] == x + y[..|y| - 1] && (x + y)[|x + y| - 1] == y[|y| - 1];
      EscapeConcat(x, y[..|y| - 1]);
      Regrouped(Escape(x), Escape(y[..|y| - 1]), ReprByte(y[|y| - 1], '\\'));
    }
  }

  predicate Printable(c: char) {
    ' ' <= c <= '~' && c != '\\'
  }

  lemma PrintableByte(c: char)
    requires Printable(c)
    ensures ReprByte(c, '\\') == [c]
  {
    assert 32 <= c as int < 127;
  }

  lemma {:induction false} EscapePrintable(data: string)
    requires forall c | c in data :: Printable(c)
    ensures Escape(data) == data
  {
    hide ReprByte;
    if data != "" {
      var front, c := data[..|data| - 1], data[|data| - 1];
      assert c in data && forall x | x in front :: x in data;
      EscapePrintable(front);
      PrintableByte(c);
      assert data == front + [c];
    }
  }

  // ---------------------------------------------------------------- Reader.read

  const EOL := "\\r\\n"

  /** Where the first line end starts, or the length of `s`. */
  function Index(s: string): (k: nat)
    ensures k <= |s|
  {
    if |s| < 4 then |s| else if s[..4] == EOL then 0 else 1 + Index(s[1..])
  }

  predicate HasLine(s: string) {
    Index(s) + 4 <= |s|
  }

  predicate EolAt(s: string, i: nat) {
    i + 4 <= |s| && s[i..i + 4] == EOL
  }

  /** It is the first line end, if there is one at all. */
  lemma {:induction false} IndexMeans(s: string)
    ensures HasLine(s) ==> EolAt(s, Index(s))
    ensures forall i: nat | EolAt(s, i) :: HasLine(s) && Index(s) <= i
  {
    if |s| >= 4 && s[..4] != EOL {
      var t := s[1..];
      IndexMeans(t);
      forall i: nat ensures EolAt(s, i) <==> 0 < i && EolAt(t, i - 1) {
        if 0 < i && i + 4 <= |s| { assert s[i..i + 4] == t[i - 1..i + 3]; }
      }
    }
  }

  /** The complete lines of a text, and what is left after them. */
  function Lines(s: string): seq<string>
    decreases |s|
  {
    if HasLine(s) then [s[..Index(s)]] + Lines(s[Index(s) + 4..]) else []
  }

  function Rest(s: string): string
    decreases |s|
  {
    if HasLine(s) then Rest(s[Index(s) + 4..]) else s
  }

  lemma {:induction false} IndexAppend(s: string, t: string)
    requires HasLine(s)
    ensures Index(s + t) == Index(s) && HasLine(s + t)
  {
    assert (s + t)[..4] == s[..4];
    if s[..4] != EOL {
      assert (s + t)[1..] == s[1..] + t;
      IndexAppend(s[1..], t);
    }
  }

  /** Text that arrives later never changes the lines already complete. */
  lemma {:induction false} LinesAppend(s: string, t: string)
    ensures Lines(s + t) == Lines(s) + Lines(Rest(s) + t)
    ensures Rest(s + t) == Rest(Rest(s) + t)
    decreases |s|
  {
    if HasLine(s) {
      var k := Index(s);
      IndexAppend(s, t);
      assert (s + t)[..k] == s[..k] && (s + t)[k + 4..] == s[k + 4..] + t;
      LinesAppend(s[k + 4..], t);
      Regroup([s[..k]], Lines(s[k + 4..]), Lines(Rest(s) + t));
      hide Index;
    } else {
      assert Lines(s) + Lines(s + t) == Lines(s + t);
    }
  }

  function Concat(chunks: seq<string>): string {
    if chunks == [] then "" else Concat(chunks[..|chunks| - 1]) + chunks[|chunks| - 1]
  }

  /** The text the reader accumulates from the chunks. */
  function Received(chunks: seq<string>): string {
    if chunks == [] then "" else Received(chunks[..|chunks| - 1]) + Shown(chunks[|chunks| - 1])
  }

  /** Reading one more chunk keeps what the reader's variables stand for. */
  lemma {:induction false} MoreArrives(chunks: seq<string>, i: nat, lines: seq<string>, lastRead: string)
    requires i < |chunks| && !HasLine(lastRead)
    requires Lines(Received(chunks[..i])) == lines + Lines(lastRead)
    requires Rest(Received(chunks[..i])) == Rest(lastRead)
    ensures Lines(Received(chunks[..i + 1])) == lines + Lines(lastRead + Shown(chunks[i]))
    ensures Rest(Received(chunks[..i + 1])) == Rest(lastRead + Shown(chunks[i]))
  {
    hide Shown, Index;
    var before, more := Received(chunks[..i]), Shown(chunks[i]);
    assert chunks[..i + 1][..i] == chunks[..i];
    assert Received(chunks[..i + 1]) == before + more;
    LinesAppend(before, more);
    assert lines + [] == lines;
  }

  lemma {:induction false} LineTaken(lines: seq<string>, lastRead: string)
    requires HasLine(lastRead)
    ensures var k := Index(lastRead);
            && lines + Lines(lastRead) == lines + [lastRead[..k]] + Lines(lastRead[k + 4..])
            && Rest(lastRead) == Rest(lastRead[k + 4..])
  {
    hide Lines, Rest, Index;
    var k := Index(lastRead);
    FirstTaken(lastRead);
    Regroup(lines, [lastRead[..k]], Lines(lastRead[k + 4..]));
  }

  lemma {:induction false} FirstTaken(s: string)
    requires HasLine(s)
    ensures Lines(s) == [s[..Index(s)]] + Lines(s[Index(s) + 4..]) && Rest(s) == Rest(s[Index(s) + 4..])
  {
    hide Index;
  }

  lemma Regroup(x: seq<string>, y: seq<string>, z: seq<string>)
    ensures x + (y + z) == x + y + z
  {
  }

  lemma NothingReceived(chunks: seq<string>)
    ensures Received(chunks[..0]) == "" && [] + Lines("") == Lines("")
  {
    assert chunks[..0] == [];
  }

  /** `Reader.read`, until the port closes after the last chunk; returns the lines handed on. */
  method Read(chunks: seq<string>) returns (lines: seq<string>, lastRead: string)
    ensures lines == Lines(Received(chunks))
    ensures lastRead == Rest(Received(chunks))
  {
    hide Index, Shown, Lines, Rest, Received;
    lines, lastRead := [], "";
    NothingReceived(chunks);
    var i := 0;
    while true
      invariant 0 <= i <= |chunks|
      invariant Lines(Received(chunks[..i])) == lines + Lines(lastRead)
      invariant Rest(Received(chunks[..i])) == Rest(lastRead)
      decreases |chunks| - i, |lastRead|
    {
      ghost var i0, lastRead0 := i, lastRead;
      while i < |chunks| && !HasLine(lastRead)
        invariant i0 <= i <= |chunks| && (i == i0 ==> lastRead == lastRead0)
        invariant Lines(Received(chunks[..i])) == lines + Lines(lastRead)
        invariant Rest(Received(chunks[..i])) == Rest(lastRead)
        decreases |chunks| - i
      {
        MoreArrives(chunks, i, lines, lastRead);
        lastRead := lastRead + Shown(chunks[i]);
        i := i + 1;
      }
      if !HasLine(lastRead) {
        break;
      }
      var k := Index(lastRead);
      LineTaken(lines, lastRead);
      lines := lines + [lastRead[..k]];
      lastRead := lastRead[k + 4..];
    }
    assert chunks[..|chunks|] == chunks;
    NoMoreLines(lastRead);
    assert lines + [] == lines;
  }

  lemma NoMoreLines(s: string)
    requires !HasLine(s)
    ensures Lines(s) == [] && Rest(s) == s
  {
  }

  lemma {:induction false} ReceivedIsEscape(chunks: seq<string>)
    requires Plain(Concat(chunks))
    ensures Received(chunks) == Escape(Concat(chunks))
  {
    if chunks != [] {
      var front, last := chunks[..|chunks| - 1], chunks[|chunks| - 1];
      assert forall c | c in Concat(front) :: c in Concat(chunks);
      assert forall c | c in last :: c in Concat(chunks);
      ReceivedIsEscape(front);
      ShownIsEscape(last);
      EscapeConcat(Concat(front), last);
    }
  }

  /** For text with at most one kind of quote the lines depend only on what was sent, never on how it
      was cut into chunks. */
  lemma ChunksDoNotMatter(x: seq<string>, y: seq<string>)
    requires Concat(x) == Concat(y) && Plain(Concat(x))
    ensures Lines(Received(x)) == Lines(Received(y)) && Rest(Received(x)) == Rest(Received(y))
  {
    ReceivedIsEscape(x);
    ReceivedIsEscape(y);
  }

  /** What the reader can tell two ways of cutting apart by. */
  ghost predicate ReadAlike(x: seq<string>, y: seq<string>) {
    Lines(Received(x)) == Lines(Received(y)) && Rest(Received(x)) == Rest(Received(y))
  }

  /** The exact condition: with both kinds of quote in it, a text is read differently when it arrives
      in one piece and when it arrives byte by byte. */
  lemma ChunksMatterIff(text: string)
    ensures Plain(text) <==> forall x, y | Concat(x) == text && Concat(y) == text :: ReadAlike(x, y)
  {
    if Plain(text) {
      forall x, y | Concat(x) == text && Concat(y) == text ensures ReadAlike(x, y) {
        ChunksDoNotMatter(x, y);
      }
    } else {
      BothQuotesDiffer(text);
    }
  }

  lemma BothQuotesDiffer(text: string)
    requires !Plain(text)
    ensures exists x, y | Concat(x) == text && Concat(y) == text :: !ReadAlike(x, y)
  {
    var whole, bytes := [text], Bytewise(text);
    WholeIsShown(text);
    BytewiseEscapes(text);
    ShownLonger(text);
    hide *;
    DifferentlyRead(whole, bytes);
  }

  lemma DifferentlyRead(x: seq<string>, y: seq<string>)
    requires Received(x) != Received(y)
    ensures !ReadAlike(x, y)
  {
    hide Received, Lines, Rest;
    UnlinesOfLines(Received(x));
    UnlinesOfLines(Received(y));
  }

  lemma WholeIsShown(text: string)
    ensures Concat([text]) == text && Received([text]) == Shown(text)
  {
    hide Shown;
    assert [text][..0] == [] && "" + text == text && "" + Shown(text) == Shown(text);
  }

  lemma ShownLonger(text: string)
    requires !Plain(text)
    ensures |Escape(text)| < |Shown(text)|
  {
    hide Escape, ReprBody;
    ReprLonger(text, '\'');
  }

  function Bytewise(text: string): (chunks: seq<string>)
    ensures Concat(chunks) == text
  {
    if text == "" then []
    else
      var n := |text| - 1;
      assert text[..n] + [text[n]] == text;
      Bytewise(text[..n]) + [[text[n]]]
  }

  /** A single byte never holds both kinds of quote. */
  lemma {:induction false} BytewiseEscapes(text: string)
    ensures Received(Bytewise(text)) == Escape(text)
  {
    if text != "" {
      var n := |text| - 1;
      BytewiseEscapes(text[..n]);
      ShownIsEscape([text[n]]);
      assert [text[n]][..0] == "";
      assert Escape([text[n]]) == ReprByte(text[n], '\\');
    }
  }

  /** Escaping a quote takes one more character. */
  lemma {:induction false} ReprLonger(text: string, quote: char)
    requires quote == '\''
    ensures |Escape(text)| <= |ReprBody(text, quote)|
    ensures quote in text ==> |Escape(text)| < |ReprBody(text, quote)|
  {
    if text != "" {
      ReprLonger(text[..|text| - 1], quote);
    }
  }

  ghost function Unlines(lines: seq<string>, rest: string): string {
    if lines == [] then rest else lines[0] + EOL + Unlines(lines[1..], rest)
  }

  /** Complete lines and the rest give the text back. */
  lemma {:induction false} UnlinesOfLines(s: string)
    ensures Unlines(Lines(s), Rest(s)) == s
    decreases |s|
  {
    IndexMeans(s);
    hide Index;
    if HasLine(s) {
      var k := Index(s);
      UnlinesOfLines(s[k + 4..]);
      assert s == s[..k] + s[k..k + 4] + s[k + 4..];
    }
  }

  // ---------------------------------------------------------------- the parser

  predicate IsDigit(c: char) {
    '0' <= c <= '9'
  }

  /** `[\d,\s]`; a space is the only white space in an escaped line. */
  predicate InClass(c: char) {
    IsDigit(c) || c == ',' || c == ' '
  }

  function CountSpaces(s: string): (n: nat)
    ensures n <= |s|
  {
    if s != "" && s[0] == ' ' then 1 + CountSpaces(s[1..]) else 0
  }

  function ClassRun(s: string): (run: string) {
    if s != "" && InClass(s[0]) then [s[0]] + ClassRun(s[1..]) else ""
  }

  /** `samples:\s*([\d,\s]+)` at the start of `s`: the group, with the one step of backtracking the
      greedy `\s*` may need. */
  function MatchHere(s: string): Option<string> {
    if |s| < 8 || s[..8] != "samples:" then None
    else
      var t := s[8..];
      var n := CountSpaces(t);
      if ClassRun(t[n..]) != "" then Some(ClassRun(t[n..]))
      else if n > 0 then Some(" ")
      else None
  }

  /** `re.search`: the leftmost match. */
  function Search(s: string): Option<string>
    decreases |s|
  {
    if MatchHere(s).Some? then MatchHere(s)
    else if s == "" then None
    else Search(s[1..])
  }

  function StripLeft(s: string): string {
    if s != "" && s[0] == ' ' then StripLeft(s[1..]) else s
  }

  function StripRight(s: string): string {
    if s != "" && s[|s| - 1] == ' ' then StripRight(s[..|s| - 1]) else s
  }

  function Strip(s: string): string {
    StripRight(StripLeft(s))
  }

  function SplitComma(s: string): (parts: seq<string>)
    ensures parts != []
  {
    if s == "" then [""]
    else
      var parts := SplitComma(s[..|s| - 1]);
      var n := |parts| - 1;
      if s[|s| - 1] == ',' then parts + [""] else parts[n := parts[n] + [s[|s| - 1]]]
  }

  function DigitValue(c: char): nat {
    if IsDigit(c) then c as int - '0' as int else 0
  }

  function DigitsValue(s: string): nat {
    if s == "" then 0 else 10 * DigitsValue(s[..|s| - 1]) + DigitValue(s[|s| - 1])
  }

  /** `int(s)`, `None` for a ValueError. Only digits and inner spaces can occur here. */
  function Int(s: string): Option<nat> {
    if s != "" && forall c | c in s :: IsDigit(c) then Some(DigitsValue(s)) else None
  }

  /** `[int(s.strip()) for s in parts if s.strip()]`. */
  function Ints(parts: seq<string>): Option<seq<nat>> {
    if parts == [] then Some([])
    else
      var n := |parts| - 1;
      var item := Strip(parts[n]);
      match Ints(parts[..n])
      case None => None
      case Some(front) =>
        if item == "" then Some(front)
        else match Int(item)
             case None => None
             case Some(v) => Some(front + [v])
  }

  /** The samples of a line, `None` where the parser's `except` returns None. */
  function Parse(line: string): Option<seq<nat>> {
    match Search(line)
    case None => None
    case Some(group) => Ints(SplitComma(Strip(group)))
  }

  // ---------------------------------------------------------------- round trip

  lemma DigitMeans(d: nat)
    requires d < 10
    ensures IsDigit(Digit(d)) && DigitValue(Digit(d)) == d
  {
  }

  lemma {:induction false} DecimalDigits(n: nat)
    ensures Decimal(n) != "" && forall c | c in Decimal(n) :: IsDigit(c)
    ensures DigitsValue(Decimal(n)) == n
  {
    DigitMeans(n % 10);
    hide Digit, DigitValue, IsDigit;
    if n >= 10 {
      DecimalDigits(n / 10);
      assert Decimal(n)[..|Decimal(n)| - 1] == Decimal(n / 10);
    } else {
      assert Decimal(n)[..|Decimal(n)| - 1] == "";
    }
  }

  lemma {:induction false} SplitAppend(s: string, d: string)
    requires ',' !in d
    ensures SplitComma(s + d) == SplitComma(s)[|SplitComma(s)| - 1 := SplitComma(s)[|SplitComma(s)| - 1] + d]
  {
    if d == "" {
      assert s + d == s;
      assert SplitComma(s)[|SplitComma(s)| - 1] + "" == SplitComma(s)[|SplitComma(s)| - 1];
    } else {
      var front, c := d[..|d| - 1], d[|d| - 1];
      assert (s + d)[..|s + d| - 1] == s + front && c in d;
      SplitAppend(s, front);
      var last := SplitComma(s)[|SplitComma(s)| - 1];
      assert (last + front) + [c] == last + d;
    }
  }

  /** The values without the leading space. */
  function Joined(samples: seq<Sample>): string {
    if samples == [] then ""
    else
      var n := |samples| - 1;
      Joined(samples[..n]) + (if n == 0 then "" else ",") + Decimal(samples[n])
  }

  ghost function Decimals(samples: seq<Sample>): seq<string> {
    seq(|samples|, i requires 0 <= i < |samples| => Decimal(samples[i]))
  }

  lemma {:induction false} OneMoreValue(samples: seq<Sample>)
    requires samples != []
    ensures var n, d := |samples| - 1, Decimal(samples[|samples| - 1]);
            && Values(samples) == (if n == 0 then " " + d else Values(samples[..n]) + "," + d)
            && Joined(samples) == (if n == 0 then d else Joined(samples[..n]) + "," + d)
  {
    hide Decimal;
    var d := Decimal(samples[|samples| - 1]);
    if |samples| == 1 {
      assert Joined(samples) == "" + "" + d == d;
      assert Values(samples) == "" + " " + d == " " + d;
    }
  }

  lemma {:induction false} ValuesJoined(samples: seq<Sample>)
    requires samples != []
    ensures Values(samples) == " " + Joined(samples)
    ensures Joined(samples) != ""
    ensures forall c | c in Joined(samples) :: IsDigit(c) || c == ','
  {
    hide Decimal, Values, Joined;
    var n := |samples| - 1;
    DecimalDigits(samples[n]);
    OneMoreValue(samples);
    if n > 0 {
      ValuesJoined(samples[..n]);
      SpaceStaysInFront(Joined(samples[..n]), Decimal(samples[n]));
    }
  }

  lemma SpaceStaysInFront(j: string, d: string)
    ensures (" " + j) + "," + d == " " + (j + "," + d) && j + "," + d != ""
    ensures forall c | c in j + "," + d :: c in j || c == ',' || c in d
  {
  }

  lemma SplitItem(s: string, d: string)
    requires ',' !in d
    ensures SplitComma(d) == [d]
    ensures SplitComma(s + "," + d) == SplitComma(s) + [d]
  {
    SplitAppend("", d);
    assert "" + d == d;
    var s' := s + ",";
    assert s'[..|s'| - 1] == s;
    SplitAppend(s', d);
  }

  lemma {:induction false} SplitJoined(samples: seq<Sample>)
    requires samples != []
    ensures SplitComma(Joined(samples)) == Decimals(samples)
  {
    hide Decimal, SplitComma;
    var n := |samples| - 1;
    var d := Decimal(samples[n]);
    DecimalDigits(samples[n]);
    if n == 0 {
      assert Joined(samples) == "" + "" + d == d;
      SplitItem("", d);
    } else {
      SplitJoined(samples[..n]);
      SplitItem(Joined(samples[..n]), d);
      assert Decimals(samples) == Decimals(samples[..n]) + [d];
    }
  }

  lemma {:induction false} IntsOfDecimals(samples: seq<Sample>)
    ensures Ints(Decimals(samples)) == Some(samples)
  {
    if samples != [] {
      var n := |samples| - 1;
      IntsOfDecimals(samples[..n]);
      assert Decimals(samples)[..n] == Decimals(samples[..n]);
      DecimalDigits(samples[n]);
      StripNothing(Decimal(samples[n]));
      assert samples == samples[..n] + [samples[n]];
    }
  }

  lemma StripNothing(s: string)
    requires ' ' !in s
    ensures Strip(s) == s
  {
    if s != "" {
      assert s[0] in s && s[|s| - 1] in s;
    }
  }

  lemma {:induction false} RunOfClass(s: string)
    requires forall c | c in s :: InClass(c)
    ensures ClassRun(s) == s
  {
    if s != "" {
      assert s[0] in s;
      RunOfClass(s[1..]);
    }
  }

  /** Parsing the body of a printed line gives the samples back. */
  lemma ParsePrinted(samples: seq<Sample>)
    requires samples != []
    ensures Parse(Body(samples)) == Some(samples)
  {
    ValuesJoined(samples);
    var joined := Joined(samples);
    var t := Body(samples)[8..];
    assert Body(samples)[..8] == "samples:" && t == " " + joined;
    assert joined[0] in joined && joined[0] != ' ';
    assert t[1..] == joined && CountSpaces(joined) == 0;
    assert CountSpaces(t) == 1;
    assert forall c | c in joined :: InClass(c);
    RunOfClass(joined);
    assert MatchHere(Body(samples)) == Some(joined);
    assert ' ' !in joined;
    StripNothing(joined);
    SplitJoined(samples);
    IntsOfDecimals(samples);
  }

  /** Text without quotes, backslashes and control characters. */
  ghost predicate Clean(text: string) {
    forall c | c in text :: Printable(c) && c != '\''
  }

  lemma EscapeLine(body: string)
    requires Clean(body)
    ensures Escape(body + "\r\n") == body + EOL && '\\' !in body
    ensures forall c | c in body + "\r\n" :: c != '\''
  {
    EscapePrintable(body);
    EscapeConcat(body, "\r\n");
    assert "\r\n"[..1] == "\r" && "\r"[..0] == "";
    assert Escape("\r") == "\\r";
    assert Escape("\r\n") == Escape("\r") + "\\n" == EOL;
    hide Escape, Printable;
  }

  lemma BodyClean(samples: seq<Sample>)
    requires samples != []
    ensures Clean(Body(samples))
  {
    ValuesJoined(samples);
    forall c | c in Body(samples) ensures Printable(c) && c != '\'' {
      assert c in "samples:" || c == ' ' || c in Joined(samples);
    }
  }

  lemma {:induction false} IndexAfter(body: string, t: string)
    requires '\\' !in body
    ensures Index(body + EOL + t) == |body|
  {
    var s := body + EOL + t;
    if body == "" {
      assert s[..4] == EOL;
    } else {
      assert s[0] == body[0] && body[0] in body;
      assert s[..4][0] == body[0] && EOL[0] == '\\';
      assert s[1..] == body[1..] + EOL + t;
      IndexAfter(body[1..], t);
    }
  }

  // ---------------------------------------------------------------- what a device sends

  /** A line of text between the waveforms. It names no samples: it has no colon right behind an `s`. */
  ghost predicate Chatter(text: string) {
    Clean(text) && forall i | 0 < i < |text| && text[i] == ':' :: text[i - 1] != 's'
  }

  /** One line of the device. */
  datatype Report = Status(text: string) | Waveform(samples: seq<Sample>)

  ghost predicate Sendable(r: Report) {
    match r
    case Status(text) => Chatter(text)
    case Waveform(samples) => samples != []
  }

  ghost function Line(r: Report): string {
    match r
    case Status(text) => text
    case Waveform(samples) => Body(samples)
  }

  ghost function Parsed(r: Report): Option<seq<nat>> {
    match r
    case Status(_) => None
    case Waveform(samples) => Some(samples)
  }

  lemma LabelEnds(text: string)
    ensures |text| >= 8 && text[..8] == "samples:" ==> text[7] == ':' && text[6] == 's'
  {
    if |text| >= 8 {
      assert text[7] == text[..8][7] && text[6] == text[..8][6];
    }
  }

  lemma {:induction false} ChatterUnmatched(text: string)
    requires Chatter(text)
    ensures Search(text) == None
    decreases |text|
  {
    LabelEnds(text);
    if text != "" {
      var rest := text[1..];
      forall i | 0 < i < |rest| && rest[i] == ':' ensures rest[i - 1] != 's' {
        assert rest[i] == text[i + 1];
      }
      ChatterUnmatched(rest);
    }
  }

  /** Every line is parsed for what it is: a waveform as its samples, anything else not at all. */
  lemma LineParses(r: Report)
    requires Sendable(r)
    ensures Parse(Line(r)) == Parsed(r) && Clean(Line(r))
  {
    match r
    case Status(text) => ChatterUnmatched(text);
    case Waveform(samples) => ParsePrinted(samples); BodyClean(samples);
  }

  /** The text a device sends. */
  ghost function Stream(reports: seq<Report>): string {
    if reports == [] then "" else Line(reports[0]) + "\r\n" + Stream(reports[1..])
  }

  ghost function LinesOf(reports: seq<Report>): seq<string> {
    seq(|reports|, i requires 0 <= i < |reports| => Line(reports[i]))
  }

  lemma FirstLine(body: string, rest: string)
    requires '\\' !in body
    ensures Lines(body + EOL + rest) == [body] + Lines(rest) && Rest(body + EOL + rest) == Rest(rest)
  {
    IndexAfter(body, rest);
    var s := body + EOL + rest;
    assert s[..|body|] == body && s[|body| + 4..] == rest;
  }

  lemma {:induction false} StreamLines(reports: seq<Report>)
    requires forall r | r in reports :: Sendable(r)
    ensures Lines(Escape(Stream(reports))) == LinesOf(reports) && Rest(Escape(Stream(reports))) == ""
    ensures '\'' !in Stream(reports)
  {
    hide Line, Sendable, Lines, Rest, Escape;
    if reports == [] {
      NoText();
    } else {
      var r := reports[0];
      assert r in reports;
      StreamLines(reports[1..]);
      LineParses(r);
      EscapeLine(Line(r));
      EscapeConcat(Line(r) + "\r\n", Stream(reports[1..]));
      FirstLine(Line(r), Escape(Stream(reports[1..])));
      assert LinesOf(reports) == [Line(r)] + LinesOf(reports[1..]);
    }
  }

  lemma NoText()
    ensures Lines(Escape("")) == [] && Rest(Escape("")) == ""
  {
  }

  /** Whole path: any reports, status lines and non-empty waveforms in any order, printed one after the
      other and cut into any chunks, come out of the reader as one line each, and the parser answers
      exactly the waveforms, with their samples, in order. */
  lemma WireRoundTrip(reports: seq<Report>, chunks: seq<string>)
    requires (forall r | r in reports :: Sendable(r)) && Concat(chunks) == Stream(reports)
    ensures |Lines(Received(chunks))| == |reports| && Rest(Received(chunks)) == ""
    ensures forall i | 0 <= i < |reports| :: Parse(Lines(Received(chunks))[i]) == Parsed(reports[i])
  {
    StreamLines(reports);
    ReceivedIsEscape(chunks);
    forall i | 0 <= i < |reports| ensures Parse(LinesOf(reports)[i]) == Parsed(reports[i]) {
      assert reports[i] in reports;
      LineParses(reports[i]);
    }
  }

  // ---------------------------------------------------------------- the firmware's status lines

  datatype Message =
    | UsbConnected
    | UsbReconnected
    | UsbDisconnected
    | WaitingForTransfer
    | TransferStarted
    | Receiving
    | WatchdogTimeout(received: nat, size: nat)
    | ReceivedIn(us: nat)
    | Flashing
    | FlashTimes(init: int, start: int, open: int, write: int, close: int)
    | SamplingAdc
    | Idle

  function Text(m: Message): string {
    match m
    case UsbConnected => "USB Connected " + ":" + ")"
    case UsbReconnected => "USB Reconnected " + ":" + ")"
    case UsbDisconnected => "USB Disconnected " + ":" + "("
    case WaitingForTransfer => "Waiting for bitstream transfer"
    case TransferStarted => "Bitstream transfer started"
    case Receiving => "Receiving bitstream"
    case WatchdogTimeout(received, size) =>
      "Watchdog timeout, " + Decimal(received) + " bytes received of " + Decimal(size)
    case ReceivedIn(us) => "Received bitstream in " + Decimal(us) + " us " + ":" + ")"
    case Flashing => "Flashing FPGA"
    case FlashTimes(init, start, open, write, close) =>
      "FPGA Flash times (us)" + ":" + Times(init, start, open, write, close)
    case SamplingAdc => "Sampling ADC"
    case Idle => "IDLE"
  }

  /** A step of the flash that failed shows as -1. */
  function Signed(n: int): string {
    if n < 0 then "-" + Decimal(-n) else Decimal(n)
  }

  function Labelled(caption: string, n: int): string {
    caption + Signed(n)
  }

  function Times(init: int, start: int, open: int, write: int, close: int): string {
    Labelled(" init ", init) + Labelled(", start ", start) + Labelled(", open ", open)
    + Labelled(", write ", write) + Labelled(", close ", close)
  }

  /** Pieces without a colon, and one that begins with its only colon. */
  predicate WordChar(c: char) {
    Printable(c) && c != '\'' && c != ':'
  }

  ghost predicate Words(text: string) {
    forall c | c in text :: WordChar(c)
  }

  lemma NumberIsWords(n: nat)
    ensures Words(Decimal(n))
  {
    DecimalDigits(n);
  }

  lemma SignedIsWords(n: int)
    ensures Words(Signed(n))
  {
    NumberIsWords(if n < 0 then -n else n);
    hide Decimal;
    assert forall c | c in "-" :: c == '-';
  }

  lemma WordsAreChatter(text: string)
    requires Words(text)
    ensures Chatter(text)
  {
    forall i | 0 < i < |text| ensures text[i] != ':' {
      assert text[i] in text;
    }
  }

  lemma OneColon(before: string, after: string)
    requires Words(before) && before != "" && before[|before| - 1] != 's' && Words(after)
    ensures Chatter(before + ":" + after)
  {
    var text := before + ":" + after;
    forall i | 0 <= i < |text| ensures text[i] == ':' <==> i == |before| {
      if i < |before| {
        assert text[i] == before[i] && before[i] in before;
      } else if i > |before| {
        assert text[i] == after[i - |before| - 1] && text[i] in after;
      }
    }
    forall c | c in text ensures Printable(c) && c != '\'' {
      assert c in before || c == ':' || c in after;
    }
  }

  lemma LabelledWords(caption: string, n: int)
    requires Words(caption)
    ensures Words(Labelled(caption, n))
  {
    SignedIsWords(n);
    hide Signed, WordChar;
  }

  lemma JoinedWords(x: string, y: string)
    requires Words(x) && Words(y)
    ensures Words(x + y)
  {
    hide WordChar;
  }

  lemma TimesWords(init: int, start: int, open: int, write: int, close: int)
    ensures Words(Times(init, start, open, write, close))
  {
    LabelledWords(" init ", init);
    LabelledWords(", start ", start);
    LabelledWords(", open ", open);
    LabelledWords(", write ", write);
    LabelledWords(", close ", close);
    hide Words, Labelled;
    var x := Labelled(" init ", init) + Labelled(", start ", start);
    JoinedWords(Labelled(" init ", init), Labelled(", start ", start));
    JoinedWords(x, Labelled(", open ", open));
    JoinedWords(x + Labelled(", open ", open), Labelled(", write ", write));
    JoinedWords(x + Labelled(", open ", open) + Labelled(", write ", write), Labelled(", close ", close));
  }

  lemma UsbWords()
    ensures Words("USB Connected ") && Words("USB Reconnected ") && Words("USB Disconnected ")
  {
  }

  lemma WaitingWords()
    ensures Words("Waiting for bitstream transfer")
  {
  }

  lemma TransferWords()
    ensures Words("Bitstream transfer started")
  {
  }

  lemma FlashWords()
    ensures Words("Receiving bitstream") && Words("FPGA Flash times (us)") && Words("(") && Words(")")
  {
  }

  lemma SampleWords()
    ensures Words("Flashing FPGA") && Words("Sampling ADC") && Words("IDLE")
  {
  }

  /** Every status line of the firmware is mere chatter to the parser. */
  lemma MessagesAreChatter(m: Message)
    ensures Chatter(Text(m))
  {
    hide Decimal, Chatter, Times, WordChar;
    UsbWords();
    WaitingWords();
    TransferWords();
    FlashWords();
    SampleWords();
    match m
    case UsbConnected => OneColon("USB Connected ", ")");
    case UsbReconnected => OneColon("USB Reconnected ", ")");
    case UsbDisconnected => OneColon("USB Disconnected ", "(");
    case WaitingForTransfer => WordsAreChatter(Text(m));
    case TransferStarted => WordsAreChatter(Text(m));
    case Receiving => WordsAreChatter(Text(m));
    case WatchdogTimeout(received, size) => TimeoutWords(received, size); WordsAreChatter(Text(m));
    case ReceivedIn(us) => ReceivedWords(us); OneColon("Received bitstream in " + Decimal(us) + " us ", ")");
    case Flashing => WordsAreChatter(Text(m));
    case FlashTimes(init, start, open, write, close) =>
      TimesWords(init, start, open, write, close);
      OneColon("FPGA Flash times (us)", Times(init, start, open, write, close));
    case SamplingAdc => WordsAreChatter(Text(m));
    case Idle => WordsAreChatter(Text(m));
  }

  lemma TimeoutWords(received: nat, size: nat)
    ensures Words("Watchdog timeout, " + Decimal(received) + " bytes received of " + Decimal(size))
  {
    hide Decimal;
    NumberIsWords(received);
    NumberIsWords(size);
    assert Words("Watchdog timeout, ") && Words(" bytes received of ");
  }

  lemma ReceivedWords(us: nat)
    ensures Words("Received bitstream in " + Decimal(us) + " us ")
  {
    hide Decimal;
    NumberIsWords(us);
    assert Words("Received bitstream in ") && Words(" us ");
  }
}
