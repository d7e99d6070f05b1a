/** What the parser makes of any line that names samples, however it is spaced; and that nothing is lost when
    the worker turns bytes into text. */
module LineParser {
  import opened Options
  import opened WireFormat

  // ---------------------------------------------------------------- text back to bytes

  function HexValue(c: char): nat {
    if '0' <= c <= '9' then c as int - '0' as int
    else if 'a' <= c <= 'f' then 10 + (c as int - 'a' as int)
    else 0
  }

  /** Reads an escaped text the way Python reads the inside of a bytes literal. */
  function Unescape(s: string): string
    decreases |s|
  {
    if s == "" then ""
    else if s[0] != '\\' || |s| < 2 then [s[0]] + Unescape(s[1..])
    else if s[1] == 't' then "\t" + Unescape(s[2..])
    else if s[1] == 'n' then "\n" + Unescape(s[2..])
    else if s[1] == 'r' then "\r" + Unescape(s[2..])
    else if s[1] == 'x' && |s| >= 4 then [(16 * HexValue(s[2]) + HexValue(s[3])) as char] + Unescape(s[4..])
    else [s[1]] + Unescape(s[2..])
  }

  ghost predicate Bytes(data: string) {
    forall c | c in data :: c as int < 256
  }

  lemma HexDigits(n: nat)
    requires n < 256
    ensures HexValue(Hex(n / 16)) == n / 16 && HexValue(Hex(n % 16)) == n % 16
  {
    HexDigit(n / 16);
    HexDigit(n % 16);
  }

  lemma HexDigit(d: nat)
    requires d < 16
    ensures HexValue(Hex(d)) == d
  {
  }

  predicate IsQuote(c: char) {
    c == '\'' || c == '\"' || c == '\\'
  }

  lemma UnescapeShort(c: char, d: char, rest: string)
    requires d != 'x'
    ensures Unescape(['\\', d] + rest) ==
            [if d == 't' then '\t' else if d == 'n' then '\n' else if d == 'r' then '\r' else d] + Unescape(rest)
  {
    assert (['\\', d] + rest)[2..] == rest;
  }

  lemma UnescapeHex(n: nat, rest: string)
    requires n < 256
    ensures Unescape(['\\', 'x', Hex(n / 16), Hex(n % 16)] + rest) == [n as char] + Unescape(rest)
  {
    HexDigits(n);
    assert (['\\', 'x', Hex(n / 16), Hex(n % 16)] + rest)[4..] == rest;
    hide Hex, HexValue;
  }

  lemma UnescapePlain(c: char, rest: string)
    requires c != '\\'
    ensures Unescape([c] + rest) == [c] + Unescape(rest)
  {
    assert ([c] + rest)[1..] == rest;
  }

  lemma {:induction false} UnescapeByte(c: char, quote: char, rest: string)
    requires c as int < 256 && IsQuote(quote)
    ensures Unescape(ReprByte(c, quote) + rest) == [c] + Unescape(rest)
  {
    hide Unescape, Hex;
    var n := c as int;
    if c == quote || c == '\\' {
      UnescapeShort(c, c, rest);
    } else if c == '\t' {
      UnescapeShort(c, 't', rest);
    } else if c == '\n' {
      UnescapeShort(c, 'n', rest);
    } else if c == '\r' {
      UnescapeShort(c, 'r', rest);
    } else if 32 <= n < 127 {
      UnescapePlain(c, rest);
    } else {
      UnescapeHex(n, rest);
    }
  }

  lemma {:induction false} UnescapeBody(data: string, quote: char, rest: string)
    requires Bytes(data) && IsQuote(quote)
    ensures Unescape(ReprBody(data, quote) + rest) == data + Unescape(rest)
    decreases |data|
  {
    hide Unescape, ReprByte, IsQuote;
    if data == "" {
      assert "" + rest == rest && "" + Unescape(rest) == Unescape(rest);
    } else {
      var front, c := data[..|data| - 1], data[|data| - 1];
      assert c in data && data == front + [c] && forall x | x in front :: x in data;
      UnescapeBody(front, quote, ReprByte(c, quote) + rest);
      UnescapeByte(c, quote, rest);
      OneByteMore(ReprBody(front, quote), ReprByte(c, quote), rest, front, c, Unescape(rest));
    }
  }

  lemma OneByteMore(body: string, byte: string, rest: string, front: string, c: char, back: string)
    ensures body + byte + rest == body + (byte + rest) && front + ([c] + back) == front + [c] + back
  {
  }

  /** The text that the reader makes of the bytes of a device gives those bytes back, whatever they are. */
  lemma ShownLosesNothing(data: string)
    requires Bytes(data)
    ensures Unescape(Shown(data)) == data
  {
    var quote := if '\'' in data && '\"' !in data then '\"' else '\'';
    UnescapeBody(data, quote, "");
    assert Shown(data) == ReprBody(data, quote);
    assert ReprBody(data, quote) + "" == ReprBody(data, quote) && data + "" == data;
  }

  // ---------------------------------------------------------------- lines that name samples

  ghost function Spaces(n: nat): string {
    if n == 0 then "" else " " + Spaces(n - 1)
  }

  /** What stands between two commas: a body of digits and inner spaces, or nothing, with spaces around. */
  datatype Field = Field(before: nat, body: string, after: nat)

  ghost predicate Trimmed(body: string) {
    && (forall c | c in body :: IsDigit(c) || c == ' ')
    && (body != "" ==> body[0] != ' ' && body[|body| - 1] != ' ')
  }

  ghost predicate Fields(fields: seq<Field>) {
    forall f | f in fields :: Trimmed(f.body)
  }

  ghost function TextOf(f: Field): string {
    Spaces(f.before) + f.body + Spaces(f.after)
  }

  ghost function Texts(fields: seq<Field>): seq<string> {
    seq(|fields|, i requires 0 <= i < |fields| => TextOf(fields[i]))
  }

  ghost function JoinComma(parts: seq<string>): string
    requires parts != []
  {
    var n := |parts| - 1;
    if n == 0 then parts[0] else JoinComma(parts[..n]) + "," + parts[n]
  }

  ghost predicate NoInnerSpace(fields: seq<Field>) {
    forall f | f in fields :: ' ' !in f.body
  }

  /** The numbers of the fields that are not blank. */
  ghost function Numbers(fields: seq<Field>): seq<nat> {
    if fields == [] then []
    else
      var n := |fields| - 1;
      Numbers(fields[..n]) + (if fields[n].body == "" then [] else [DigitsValue(fields[n].body)])
  }

  lemma {:induction false} SplitJoin(parts: seq<string>)
    requires parts != [] && forall p | p in parts :: ',' !in p
    ensures SplitComma(JoinComma(parts)) == parts
  {
    hide SplitComma;
    var n := |parts| - 1;
    assert parts[n] in parts && parts == parts[..n] + [parts[n]];
    if n == 0 {
      SplitItem("", parts[0]);
    } else {
      SplitJoin(parts[..n]);
      SplitItem(JoinComma(parts[..n]), parts[n]);
    }
  }

  lemma Grouped(pre: string, caption: string, list: string, post: string)
    ensures caption + list + post == caption + (list + post)
    ensures pre + caption + list + post == pre + caption + (list + post)
  {
  }

  /** The line as printed: the label, a space, the numbers between commas, and the line end. */
  lemma {:induction false} PrintedIs(samples: seq<Sample>)
    requires samples != []
    ensures Printed(samples) == "samples:" + " " + JoinComma(Decimals(samples)) + "\r\n"
  {
    ValuesJoined(samples);
    JoinedIs(samples);
    hide Values, Joined, JoinComma, Decimals;
    Grouped("", "samples:", " ", Joined(samples));
  }

  lemma {:induction false} JoinedIs(samples: seq<Sample>)
    requires samples != []
    ensures Joined(samples) == JoinComma(Decimals(samples))
  {
    hide Decimal;
    var n := |samples| - 1;
    OneMoreValue(samples);
    assert Decimals(samples)[..n] == Decimals(samples[..n]) && Decimals(samples)[n] == Decimal(samples[n]);
    if n > 0 {
      JoinedIs(samples[..n]);
    }
  }

  // ---------------------------------------------------------------- spaces around a field do not count

  lemma StripSpaceLeft(p: string)
    ensures Strip(" " + p) == Strip(p)
  {
    assert (" " + p)[1..] == p;
  }

  lemma {:induction false} StripLeftThenRight(p: string)
    ensures StripRight(StripLeft(p + " ")) == StripRight(StripLeft(p))
    decreases |p|
  {
    if p == "" {
      assert (p + " ")[1..] == "";
    } else if p[0] == ' ' {
      StripLeftThenRight(p[1..]);
      assert (p + " ")[1..] == p[1..] + " ";
    } else {
      assert StripLeft(p + " ") == p + " " && (p + " ")[..|p|] == p;
    }
  }

  lemma StripSpaceRight(p: string)
    ensures Strip(p + " ") == Strip(p)
  {
    StripLeftThenRight(p);
  }

  lemma {:induction false} StripBefore(n: nat, p: string)
    ensures Strip(Spaces(n) + p) == Strip(p)
  {
    hide Strip;
    if n == 0 {
      assert "" + p == p;
    } else {
      StripBefore(n - 1, p);
      StripSpaceLeft(Spaces(n - 1) + p);
      assert Spaces(n) + p == " " + (Spaces(n - 1) + p);
    }
  }

  lemma {:induction false} SpacesEnd(n: nat)
    requires n > 0
    ensures Spaces(n) == Spaces(n - 1) + " "
  {
    if n > 1 {
      SpacesEnd(n - 1);
    }
  }

  lemma {:induction false} StripAfter(p: string, n: nat)
    ensures Strip(p + Spaces(n)) == Strip(p)
    decreases n
  {
    if n == 0 {
      assert p + "" == p;
    } else {
      StripAfter(p, n - 1);
      SpacesEnd(n);
      StripSpaceRight(p + Spaces(n - 1));
      assert p + Spaces(n) == p + Spaces(n - 1) + " ";
    }
  }

  lemma StripField(f: Field)
    requires Trimmed(f.body)
    ensures Strip(TextOf(f)) == f.body
  {
    StripAfter(Spaces(f.before) + f.body, f.after);
    StripBefore(f.before, f.body);
    assert Strip(f.body) == f.body;
  }

  lemma {:induction false} ReadOneMore(texts: seq<string>, body: string)
    requires texts != [] && Strip(texts[|texts| - 1]) == body
    ensures Ints(texts) == match Ints(texts[..|texts| - 1])
                           case None => None
                           case Some(front) =>
                             if body == "" then Some(front)
                             else match Int(body) case None => None case Some(v) => Some(front + [v])
  {
    hide Strip, Int;
  }

  lemma LastField(fields: seq<Field>)
    requires fields != [] && Fields(fields)
    ensures var n := |fields| - 1;
            && Fields(fields[..n]) && Trimmed(fields[n].body)
            && (NoInnerSpace(fields) <==> NoInnerSpace(fields[..n]) && ' ' !in fields[n].body)
            && |Texts(fields)| == n + 1 && Texts(fields)[..n] == Texts(fields[..n])
            && Texts(fields)[n] == TextOf(fields[n])
  {
    var n := |fields| - 1;
    assert fields == fields[..n] + [fields[n]] && fields[n] in fields && forall x | x in fields[..n] :: x in fields;
    hide Trimmed, TextOf;
  }

  /** The fields are read one by one: a blank one is skipped, an inner space is an error. */
  lemma {:induction false} ReadFields(fields: seq<Field>)
    requires Fields(fields)
    ensures Ints(Texts(fields)) == if NoInnerSpace(fields) then Some(Numbers(fields)) else None
  {
    if fields == [] {
      assert Texts(fields) == [];
    } else {
      var n := |fields| - 1;
      var body := fields[n].body;
      LastField(fields);
      hide Ints, Strip, Int, Texts, TextOf, Trimmed, Fields, NoInnerSpace, DigitsValue;
      ReadFields(fields[..n]);
      StripField(fields[n]);
      if body != "" {
        BodyReads(body);
      }
      ReadOneMore(Texts(fields), body);
      assert Numbers(fields[..n]) + [] == Numbers(fields[..n]);
    }
  }

  lemma BodyReads(body: string)
    requires Trimmed(body) && body != ""
    ensures Int(body) == if ' ' in body then None else Some(DigitsValue(body))
  {
    if ' ' in body {
      assert !IsDigit(' ');
    }
  }

  // ---------------------------------------------------------------- spaces around the whole list do not count

  ghost function OneCharMore(parts: seq<string>, c: char): seq<string>
    requires parts != []
  {
    var n := |parts| - 1;
    if c == ',' then parts + [""] else parts[n := parts[n] + [c]]
  }

  lemma SpacedCharMore(parts: seq<string>, c: char)
    requires parts != []
    ensures OneCharMore(parts, c) != []
    ensures OneCharMore(parts[0 := " " + parts[0]], c) ==
            OneCharMore(parts, c)[0 := " " + OneCharMore(parts, c)[0]]
  {
    assert " " + parts[0] + [c] == " " + (parts[0] + [c]);
  }

  lemma {:induction false} SplitMore(s: string)
    requires s != ""
    ensures SplitComma(s) == OneCharMore(SplitComma(s[..|s| - 1]), s[|s| - 1])
  {
  }

  lemma SpacedText(s: string)
    requires s != ""
    ensures (" " + s)[..|" " + s| - 1] == " " + s[..|s| - 1] && (" " + s)[|" " + s| - 1] == s[|s| - 1]
  {
  }

  lemma SplitSpace()
    ensures SplitComma("") == [""] && SplitComma(" ") == [" "]
  {
    assert " "[..0] == "" && "" + [' '] == " ";
  }

  lemma {:induction false} SplitSpaceLeft(s: string)
    ensures SplitComma(" " + s) == SplitComma(s)[0 := " " + SplitComma(s)[0]]
    decreases |s|
  {
    hide SplitComma, OneCharMore;
    if s == "" {
      SplitSpace();
      assert " " + "" == " ";
    } else {
      var front, c := s[..|s| - 1], s[|s| - 1];
      SplitSpaceLeft(front);
      SpacedText(s);
      SplitMore(" " + s);
      SplitMore(s);
      SpacedCharMore(SplitComma(front), c);
    }
  }

  lemma {:induction false} IntsFirst(parts: seq<string>)
    requires parts != []
    ensures Ints(parts[0 := " " + parts[0]]) == Ints(parts)
  {
    var n := |parts| - 1;
    var spaced := parts[0 := " " + parts[0]];
    if n == 0 {
      StripSpaceLeft(parts[0]);
      assert spaced[..0] == parts[..0];
    } else {
      IntsFirst(parts[..n]);
      assert spaced[..n] == parts[..n][0 := " " + parts[..n][0]] && spaced[n] == parts[n];
    }
    hide Strip, Int;
  }

  lemma ReadSpaceLeft(s: string)
    ensures Ints(SplitComma(" " + s)) == Ints(SplitComma(s))
  {
    SplitSpaceLeft(s);
    IntsFirst(SplitComma(s));
  }

  lemma ReadSpaceRight(s: string)
    ensures Ints(SplitComma(s + " ")) == Ints(SplitComma(s))
  {
    var parts := SplitComma(s);
    var n := |parts| - 1;
    SplitAppend(s, " ");
    hide SplitComma;
    var spaced := parts[n := parts[n] + " "];
    assert spaced[..n] == parts[..n];
    StripSpaceRight(parts[n]);
    hide Ints, Strip, Int;
    ReadOneMore(parts, Strip(parts[n]));
    ReadOneMore(spaced, Strip(parts[n]));
  }

  lemma {:induction false} ReadStripped(s: string)
    ensures Ints(SplitComma(StripRight(s))) == Ints(SplitComma(s))
    decreases |s|
  {
    if s != "" && s[|s| - 1] == ' ' {
      ReadStripped(s[..|s| - 1]);
      ReadSpaceRight(s[..|s| - 1]);
      assert s == s[..|s| - 1] + " ";
    }
  }

  lemma {:induction false} ReadStrippedLeft(s: string)
    ensures Ints(SplitComma(StripLeft(s))) == Ints(SplitComma(s))
    decreases |s|
  {
    if s != "" && s[0] == ' ' {
      ReadStrippedLeft(s[1..]);
      ReadSpaceLeft(s[1..]);
      assert s == " " + s[1..];
    }
  }

  lemma {:induction false} ReadUnspaced(s: string)
    ensures Ints(SplitComma(s[CountSpaces(s)..])) == Ints(SplitComma(s))
    decreases |s|
  {
    if s != "" && s[0] == ' ' {
      ReadUnspaced(s[1..]);
      ReadSpaceLeft(s[1..]);
      assert s == " " + s[1..] && s[CountSpaces(s)..] == s[1..][CountSpaces(s[1..])..];
    } else {
      assert s[0..] == s;
    }
  }

  // ---------------------------------------------------------------- finding the list

  /** Digits, commas and spaces, and what follows is something else. */
  ghost predicate ListText(list: string, post: string) {
    && list != "" && (forall c | c in list :: InClass(c))
    && (post != "" ==> !InClass(post[0]))
  }

  lemma {:induction false} RunEnds(list: string, post: string)
    requires (forall c | c in list :: InClass(c)) && (post != "" ==> !InClass(post[0]))
    ensures ClassRun(list + post) == list
  {
    if list == "" {
      assert list + post == post;
    } else {
      assert list[0] in list && (list + post)[1..] == list[1..] + post;
      RunEnds(list[1..], post);
    }
  }

  lemma {:induction false} SpacesEndToo(list: string, post: string)
    requires post != "" ==> !InClass(post[0])
    ensures CountSpaces(list + post) == CountSpaces(list)
  {
    if list == "" {
      assert list + post == post;
    } else if list[0] == ' ' {
      assert (list + post)[1..] == list[1..] + post;
      SpacesEndToo(list[1..], post);
    }
  }

  lemma {:induction false} AllSpaces(list: string)
    requires list[CountSpaces(list)..] == ""
    ensures Ints(SplitComma(list)) == Some([])
  {
    ReadUnspaced(list);
    assert Ints(SplitComma("")) == Some([]) by {
      assert [""][..0] == [] && Strip("") == "";
    }
  }

  /** At the label the list is found, but for leading spaces; what is read of it is the same. */
  lemma MatchReads(list: string, post: string)
    requires ListText(list, post)
    ensures MatchHere("samples:" + list + post).Some?
    ensures Ints(SplitComma(Strip(MatchHere("samples:" + list + post).value))) == Ints(SplitComma(list))
  {
    var s, n := "samples:" + list + post, CountSpaces(list);
    assert s[..8] == "samples:" && s[8..] == list + post;
    SpacesEndToo(list, post);
    assert (list + post)[n..] == list[n..] + post;
    assert forall c | c in list[n..] :: c in list;
    RunEnds(list[n..], post);
    ReadUnspaced(list);
    hide Ints, SplitComma, ClassRun;
    if list[n..] != "" {
      ReadStrippedLeft(list[n..]);
      ReadStripped(StripLeft(list[n..]));
    } else {
      AllSpaces(list);
      AllSpaces(" ");
      ReadStrippedLeft(" ");
      ReadStripped(StripLeft(" "));
    }
  }

  lemma NoLabelYet(pre: string, rest: string)
    requires pre != "" && ':' !in pre
    ensures MatchHere(pre + "samples:" + rest) == None
  {
    var s := pre + "samples:" + rest;
    if |s| >= 8 {
      if 7 < |pre| {
        assert s[7] == pre[7] && pre[7] in pre;
      } else {
        assert s[7] == "samples:"[7 - |pre|];
      }
      assert s[..8][7] == s[7] != ':';
    }
  }

  lemma {:induction false} SearchFinds(pre: string, rest: string)
    requires ':' !in pre && MatchHere("samples:" + rest).Some?
    ensures Search(pre + "samples:" + rest) == MatchHere("samples:" + rest)
  {
    if pre == "" {
      assert pre + "samples:" + rest == "samples:" + rest;
    } else {
      NoLabelYet(pre, rest);
      hide MatchHere;
      assert (pre + "samples:" + rest)[1..] == pre[1..] + "samples:" + rest;
      SearchFinds(pre[1..], rest);
    }
  }

  lemma SearchReads(pre: string, list: string, post: string)
    requires ':' !in pre && ListText(list, post)
    ensures Parse(pre + "samples:" + list + post) == Ints(SplitComma(list))
  {
    MatchReads(list, post);
    Grouped(pre, "samples:", list, post);
    SearchFinds(pre, list + post);
    hide Search, MatchHere, Ints, SplitComma, Strip, ListText;
  }

  lemma {:induction false} FieldsAreText(fields: seq<Field>)
    requires fields != [] && Fields(fields)
    ensures forall p | p in Texts(fields) :: ',' !in p
  {
    forall p | p in Texts(fields) ensures ',' !in p {
      var i :| 0 <= i < |fields| && p == TextOf(fields[i]);
      assert fields[i] in fields;
      SpacesAreSpaces(fields[i].before);
      SpacesAreSpaces(fields[i].after);
    }
  }

  lemma {:induction false} SpacesAreSpaces(n: nat)
    ensures forall c | c in Spaces(n) :: c == ' '
  {
    if n > 0 {
      SpacesAreSpaces(n - 1);
    }
  }

  /** The parser on any line that names samples: whatever stands before and behind, however the list is
      spaced and whichever items are blank, it reads exactly the numbers, unless an item has a space inside. */
  lemma ParseReads(pre: string, fields: seq<Field>, post: string)
    requires ':' !in pre && fields != [] && Fields(fields) && ListText(JoinComma(Texts(fields)), post)
    ensures Parse(pre + "samples:" + JoinComma(Texts(fields)) + post) ==
            if NoInnerSpace(fields) then Some(Numbers(fields)) else None
  {
    var list := JoinComma(Texts(fields));
    assert Texts(fields) != [];
    hide Search, MatchHere, Ints, SplitComma, Strip, JoinComma, Texts, TextOf, Numbers, ListText, Fields, NoInnerSpace;
    FieldsAreText(fields);
    SplitJoin(Texts(fields));
    ReadFields(fields);
    SearchReads(pre, list, post);
  }

  // ---------------------------------------------------------------- that is every list

  lemma JoinLonger(parts: seq<string>, more: string)
    requires parts != []
    ensures var n := |parts| - 1; JoinComma(parts[n := parts[n] + more]) == JoinComma(parts) + more
  {
    var n := |parts| - 1;
    assert parts[n := parts[n] + more][..n] == parts[..n];
  }

  lemma JoinNext(parts: seq<string>)
    requires parts != []
    ensures JoinComma(parts + [""]) == JoinComma(parts) + ","
  {
    assert (parts + [""])[..|parts|] == parts;
    assert JoinComma(parts) + "," + "" == JoinComma(parts) + ",";
  }

  lemma {:induction false} SpacesAdd(n: nat, m: nat)
    ensures Spaces(n) + Spaces(m) == Spaces(n + m)
  {
    if n == 0 {
      assert "" + Spaces(m) == Spaces(m);
    } else {
      SpacesAdd(n - 1, m);
      assert Spaces(n) + Spaces(m) == " " + (Spaces(n - 1) + Spaces(m));
    }
  }

  lemma OneCharLonger(f: Field, c: char) returns (g: Field)
    requires Trimmed(f.body) && (IsDigit(c) || c == ' ')
    ensures Trimmed(g.body) && TextOf(g) == TextOf(f) + [c]
  {
    if c == ' ' {
      g := f.(after := f.after + 1);
      SpacesEnd(f.after + 1);
      assert Spaces(f.before) + f.body + (Spaces(f.after) + " ") == TextOf(f) + " ";
    } else if f.body == "" {
      g := Field(f.before + f.after, [c], 0);
      SpacesAdd(f.before, f.after);
      assert Spaces(f.before) + "" == Spaces(f.before);
    } else {
      g := Field(f.before, f.body + Spaces(f.after) + [c], 0);
      SpacesAreSpaces(f.after);
      assert Spaces(f.before) + (f.body + Spaces(f.after) + [c]) + "" == TextOf(f) + [c];
    }
  }

  lemma AddComma(front: seq<Field>) returns (fields: seq<Field>)
    requires front != [] && Fields(front)
    ensures fields != [] && Fields(fields) && JoinComma(Texts(fields)) == JoinComma(Texts(front)) + ","
  {
    fields := front + [Field(0, "", 0)];
    BlankField();
    hide TextOf, Trimmed, JoinComma;
    JoinNext(Texts(front));
    assert Texts(fields) == Texts(front) + [""];
  }

  lemma AddChar(front: seq<Field>, c: char) returns (fields: seq<Field>)
    requires front != [] && Fields(front) && (IsDigit(c) || c == ' ')
    ensures fields != [] && Fields(fields) && JoinComma(Texts(fields)) == JoinComma(Texts(front)) + [c]
  {
    var k := |front| - 1;
    assert front[k] in front;
    hide IsDigit, TextOf, Trimmed, JoinComma;
    var g := OneCharLonger(front[k], c);
    fields := front[k := g];
    JoinLonger(Texts(front), [c]);
    assert Texts(fields) == Texts(front)[k := Texts(front)[k] + [c]];
  }

  /** Any text of digits, commas and spaces is a list of such fields. */
  lemma {:induction false} FieldsOf(list: string) returns (fields: seq<Field>)
    requires forall c | c in list :: InClass(c)
    ensures fields != [] && Fields(fields) && JoinComma(Texts(fields)) == list
  {
    if list == "" {
      fields := [Field(0, "", 0)];
      BlankField();
      hide TextOf, Trimmed;
      assert Texts(fields) == [""];
    } else {
      var n, c := |list| - 1, list[|list| - 1];
      assert list == list[..n] + [c] && c in list;
      var front := FieldsOf(list[..n]);
      hide Fields, TextOf, Trimmed, JoinComma, Texts;
      if c == ',' {
        fields := AddComma(front);
      } else {
        fields := AddChar(front, c);
      }
    }
  }

  lemma BlankField()
    ensures TextOf(Field(0, "", 0)) == "" && Trimmed("")
  {
  }
}
