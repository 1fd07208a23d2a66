/** Printing a JSON value and parsing it gives the value back. */
module JsonProofs {
  import opened Common
  import opened Json
  import Utf8

  /** What may follow a value: nothing, or the punctuation of the value around it. */
  predicate EndsValue(rest: Bytes) {
    rest == [] || rest[0] == COMMA || rest[0] == CLOSE_BRACKET || rest[0] == CLOSE_BRACE
  }

  /** Every number in the value has the text of a number. */
  predicate WellFormed(v: Json)
    decreases v
  {
    match v
    case Number(text) => IsNumber(text)
    case Arr(items) => forall i :: 0 <= i < |items| ==> WellFormed(items[i])
    case Obj(fields) => forall i :: 0 <= i < |fields| ==> WellFormed(fields[i].value)
    case _ => true
  }

  // ----- strings -----

  lemma {:induction false} HexDigitValue(n: nat)
    requires n < 16
    ensures HexValue(HexDigit(n)) == Some(n)
  {
  }

  lemma {:induction false} UnescapeInverts(c: Byte, rest: Bytes)
    requires MustEscape(c)
    ensures var e := EscapeByte(c); Unescape((e + rest)[1..]) == Some(([c], rest)) && e[0] == BACKSLASH
  {
    var e := EscapeByte(c);
    var s := (e + rest)[1..];
    assert s == e[1..] + rest;
    if |e| == 2 {
      assert s[1..] == rest;
    } else {
      HexDigitValue(c / 16);
      HexDigitValue(c % 16);
      HexDigitValue(0);
      assert s[1..][0] == 48 && s[1..][1] == 48 && s[1..][2] == HexDigit(c / 16) && s[1..][3] == HexDigit(c % 16);
      assert Hex4(s[1..]) == Some(c / 16 * 16 + c % 16);
      assert s[5..] == rest;
    }
  }

  lemma {:induction false} CharsInvert(s: Bytes, rest: Bytes)
    ensures ParseChars(Escape(s) + [QUOTE] + rest) == Some((s, rest))
  {
    var text := Escape(s) + [QUOTE] + rest;
    if s == [] {
      assert text[1..] == rest;
    } else {
      CharsInvert(s[1..], rest);
      var tail := Escape(s[1..]) + [QUOTE] + rest;
      assert text == EscapeByte(s[0]) + tail;
      assert s == [s[0]] + s[1..];
      if MustEscape(s[0]) {
        UnescapeInverts(s[0], tail);
      } else {
        assert text[1..] == tail;
      }
    }
  }

  // ----- numbers -----

  lemma {:induction false} DigitsThen(s: Bytes, rest: Bytes)
    requires EndsValue(rest)
    ensures AfterDigits(s + rest) == AfterDigits(s) + rest
  {
    if s == [] {
      assert s + rest == rest;
    } else {
      assert (s + rest)[1..] == s[1..] + rest;
      DigitsThen(s[1..], rest);
    }
  }

  lemma {:induction false} FractionThen(s: Bytes, rest: Bytes)
    requires EndsValue(rest) && AfterFraction(s).Some?
    ensures AfterFraction(s + rest) == Some(AfterFraction(s).value + rest)
  {
    if s != [] {
      assert (s + rest)[1..] == s[1..] + rest;
      DigitsThen(s[1..], rest);
    }
  }

  lemma {:induction false} ExponentThen(s: Bytes, rest: Bytes)
    requires EndsValue(rest) && AfterExponent(s).Some?
    ensures AfterExponent(s + rest) == Some(AfterExponent(s).value + rest)
  {
    hide AfterDigits;
    if Starts(s, 101) || Starts(s, 69) {
      var t := s[1..];
      var u := if Starts(t, 43) || Starts(t, 45) then t[1..] else t;
      assert (s + rest)[1..] == t + rest && u != [];
      assert t != [] && (t + rest)[0] == t[0] && (t + rest)[1..] == t[1..] + rest;
      DigitsThen(u, rest);
    }
  }

  lemma {:induction false} NumberThen(t: Bytes, rest: Bytes)
    requires IsNumber(t) && EndsValue(rest)
    ensures AfterNumber(t + rest) == Some(rest)
  {
    hide AfterDigits, AfterFraction, AfterExponent;
    var s := if Starts(t, 45) then t[1..] else t;
    assert (t + rest)[1..] == t[1..] + rest;
    assert (s + rest)[1..] == s[1..] + rest;
    DigitsThen(s[1..], rest);
    var u := AfterInt(s).value;
    assert AfterInt(s + rest) == Some(u + rest);
    FractionThen(u, rest);
    ExponentThen(AfterFraction(u).value, rest);
    assert [] + rest == rest;
  }

  // ----- values -----

  /** How a printed value can begin. */
  predicate Begins(c: Byte) {
    c == 110 || c == 116 || c == 102 || c == QUOTE || c == OPEN_BRACKET || c == OPEN_BRACE || c == 45 || IsDigit(c)
  }

  lemma {:induction false} PrintBegins(v: Json)
    requires WellFormed(v)
    ensures Print(v) != [] && Begins(Print(v)[0])
    ensures v.Number? <==> Print(v)[0] == 45 || IsDigit(Print(v)[0])
    ensures v.Str? <==> Print(v)[0] == QUOTE
    ensures v.Arr? <==> Print(v)[0] == OPEN_BRACKET
    ensures v.Obj? <==> Print(v)[0] == OPEN_BRACE
  {
  }

  lemma {:induction false} ValueInverts(v: Json, rest: Bytes)
    requires WellFormed(v) && EndsValue(rest)
    ensures ParseValue(Print(v) + rest) == Some((v, rest))
    decreases v, 1
  {
    match v
    case Number(text) => NumberInverts(text, rest);
    case Str(b) => StringInverts(b, rest);
    case Arr(items) =>
      if items != [] {
        ItemsInvert(items, rest);
      }
      ArrayInverts(items, rest);
    case Obj(fields) =>
      if fields != [] {
        FieldsInvert(fields, rest);
      }
      ObjectInverts(fields, rest);
    case _ => WordInverts(v, rest);
  }

  lemma {:induction false} WordInverts(v: Json, rest: Bytes)
    requires v.Null? || v.Bool?
    ensures ParseValue(Print(v) + rest) == Some((v, rest))
  {
    var s := Print(v) + rest;
    var n := |Print(v)|;
    assert s[..n] == Print(v) && s[n..] == rest && s[0] == Print(v)[0];
    assert SkipSpace(s) == s;
    assert Ascii("null")[0] == 110 && Ascii("true")[0] == 116 && Ascii("false")[0] == 102;
  }

  lemma {:induction false} StringInverts(b: Bytes, rest: Bytes)
    ensures ParseValue(PrintString(b) + rest) == Some((Str(b), rest))
  {
    var s := PrintString(b) + rest;
    assert s[0] == QUOTE && s[1..] == Escape(b) + [QUOTE] + rest;
    CharsInvert(b, rest);
  }

  lemma {:induction false} ArrayStep(s: Bytes, u: Bytes, items: seq<Json>, rest: Bytes)
    requires s != [] && s[0] == OPEN_BRACKET && s[1..] == u && SkipSpace(u) == u
    requires if Starts(u, CLOSE_BRACKET) then items == [] && rest == u[1..]
             else ParseItems(u) == Some((items, rest))
    ensures ParseValue(s) == Some((Arr(items), rest))
  {
    assert SkipSpace(s) == s;
  }

  lemma {:induction false} ObjectStep(s: Bytes, u: Bytes, fields: seq<Field>, rest: Bytes)
    requires s != [] && s[0] == OPEN_BRACE && s[1..] == u && SkipSpace(u) == u
    requires if Starts(u, CLOSE_BRACE) then fields == [] && rest == u[1..]
             else ParseFields(u) == Some((fields, rest))
    ensures ParseValue(s) == Some((Obj(fields), rest))
  {
    assert SkipSpace(s) == s;
  }

  /** The text of a bracketed value, bracket by bracket. */
  lemma {:induction false} BracketText(open: Byte, inner: Bytes, close: Byte, rest: Bytes)
    ensures var s := [open] + inner + [close] + rest; s[0] == open && s[1..] == inner + ([close] + rest)
    ensures ([close] + rest)[0] == close && ([close] + rest)[1..] == rest
    ensures [] + ([close] + rest) == [close] + rest
  {
  }

  lemma {:induction false} ArrayInverts(items: seq<Json>, rest: Bytes)
    requires items != [] ==>
               && WellFormed(items[0])
               && ParseItems(PrintItems(items) + ([CLOSE_BRACKET] + rest)) == Some((items, rest))
    ensures ParseValue(Print(Arr(items)) + rest) == Some((Arr(items), rest))
  {
    var inner, end := PrintItems(items), [CLOSE_BRACKET] + rest;
    assert Print(Arr(items)) == [OPEN_BRACKET] + inner + [CLOSE_BRACKET];
    assert items == [] ==> inner == [];
    hide ParseValue, ParseItems, PrintItems, Print;
    var s := [OPEN_BRACKET] + inner + [CLOSE_BRACKET] + rest;
    BracketText(OPEN_BRACKET, inner, CLOSE_BRACKET, rest);
    if items != [] {
      ItemsBegin(items, end);
      ArrayStep(s, inner + end, items, rest);
    } else {
      ArrayStep(s, end, [], rest);
    }
  }

  lemma {:induction false} ObjectInverts(fields: seq<Field>, rest: Bytes)
    requires fields != [] ==>
               ParseFields(PrintFields(fields) + ([CLOSE_BRACE] + rest)) == Some((fields, rest))
    ensures ParseValue(Print(Obj(fields)) + rest) == Some((Obj(fields), rest))
  {
    var inner, end := PrintFields(fields), [CLOSE_BRACE] + rest;
    assert Print(Obj(fields)) == [OPEN_BRACE] + inner + [CLOSE_BRACE];
    assert fields == [] ==> inner == [];
    hide ParseValue, ParseFields, PrintFields, Print;
    var s := [OPEN_BRACE] + inner + [CLOSE_BRACE] + rest;
    BracketText(OPEN_BRACE, inner, CLOSE_BRACE, rest);
    if fields != [] {
      FieldsBegin(fields, end);
      ObjectStep(s, inner + end, fields, rest);
    } else {
      ObjectStep(s, end, [], rest);
    }
  }

  lemma {:induction false} NumberInverts(text: Bytes, rest: Bytes)
    requires IsNumber(text) && EndsValue(rest)
    ensures ParseValue(text + rest) == Some((Number(text), rest))
  {
    hide AfterNumber, IsNumber, ParseItems, ParseFields, ParseChars;
    var s := text + rest;
    PrintBegins(Number(text));
    assert s[0] == text[0] && SkipSpace(s) == s;
    NumberThen(text, rest);
    assert s[..|s| - |rest|] == text;
    assert Ascii("null")[0] == 110 && Ascii("true")[0] == 116 && Ascii("false")[0] == 102;
  }

  /** Printed items begin with a value, so no space and no closing bracket. */
  lemma {:induction false} ItemsBegin(items: seq<Json>, rest: Bytes)
    requires items != [] && WellFormed(items[0])
    ensures var s := PrintItems(items) + rest; s != [] && Begins(s[0]) && SkipSpace(s) == s
  {
    PrintBegins(items[0]);
    assert (PrintItems(items) + rest)[0] == Print(items[0])[0];
  }

  lemma {:induction false} FieldsBegin(fields: seq<Field>, rest: Bytes)
    requires fields != []
    ensures var s := PrintFields(fields) + rest; s != [] && s[0] == QUOTE && SkipSpace(s) == s
  {
    assert PrintFields(fields)[0] == QUOTE;
  }

  /** Reading one more item. */
  lemma {:induction false} ItemsStep(s: Bytes, v: Json, tail: Bytes, more: seq<Json>, end: Bytes)
    requires ParseValue(s) == Some((v, tail)) && tail != []
    requires (tail[0] == CLOSE_BRACKET && more == [] && end == tail[1..])
          || (tail[0] == COMMA && ParseItems(tail[1..]) == Some((more, end)))
    ensures ParseItems(s) == Some(([v] + more, end))
  {
    assert SkipSpace(tail) == tail;
    assert [v] + [] == [v];
  }

  lemma {:induction false} ItemsText(items: seq<Json>, close: Bytes)
    requires |items| > 1
    ensures PrintItems(items) + close == Print(items[0]) + ([COMMA] + (PrintItems(items[1..]) + close))
  {
  }

  lemma {:induction false} ItemsInvert(items: seq<Json>, rest: Bytes)
    requires items != [] && forall i :: 0 <= i < |items| ==> WellFormed(items[i])
    ensures ParseItems(PrintItems(items) + ([CLOSE_BRACKET] + rest)) == Some((items, rest))
    decreases items, 0
  {
    var close := [CLOSE_BRACKET] + rest;
    if |items| == 1 {
      ValueInverts(items[0], close);
      assert close[1..] == rest && items == [items[0]] + [];
      ItemsStep(Print(items[0]) + close, items[0], close, [], rest);
    } else {
      var more := PrintItems(items[1..]) + close;
      var tail := [COMMA] + more;
      ItemsText(items, close);
      ValueInverts(items[0], tail);
      assert tail[1..] == more;
      ItemsInvert(items[1..], rest);
      ItemsStep(Print(items[0]) + tail, items[0], tail, items[1..], rest);
      assert items == [items[0]] + items[1..];
    }
  }

  /** Reading one more field. */
  lemma {:induction false} FieldsStep(s: Bytes, f: Field, colon: Bytes, tail: Bytes, more: seq<Field>, end: Bytes)
    requires Starts(s, QUOTE) && ParseChars(s[1..]) == Some((f.name, colon))
    requires Starts(colon, COLON) && ParseValue(colon[1..]) == Some((f.value, tail)) && tail != []
    requires (tail[0] == CLOSE_BRACE && more == [] && end == tail[1..])
          || (tail[0] == COMMA && SkipSpace(tail[1..]) == tail[1..] && ParseFields(tail[1..]) == Some((more, end)))
    ensures ParseFields(s) == Some(([f] + more, end))
  {
    assert SkipSpace(tail) == tail && SkipSpace(colon) == colon;
    assert [f] + [] == [f];
  }

  lemma {:induction false} FieldText(e: Bytes, p: Bytes, tail: Bytes)
    ensures [QUOTE] + e + [QUOTE] + [COLON] + p + tail == [QUOTE] + (e + [QUOTE] + ([COLON] + (p + tail)))
  {
  }

  lemma {:induction false} MoreFieldsText(first: Bytes, more: Bytes, close: Bytes)
    ensures first + [COMMA] + more + close == first + ([COMMA] + (more + close))
  {
  }

  lemma {:induction false} FieldsText(fields: seq<Field>, close: Bytes)
    requires fields != []
    ensures var f := fields[0];
            var tail := if |fields| == 1 then close else [COMMA] + (PrintFields(fields[1..]) + close);
            var s := PrintFields(fields) + close;
            && s[0] == QUOTE
            && s[1..] == Escape(f.name) + [QUOTE] + ([COLON] + (Print(f.value) + tail))
  {
    var e, p := Escape(fields[0].name), Print(fields[0].value);
    var more := PrintFields(fields[1..]);
    if |fields| == 1 {
      FieldText(e, p, close);
    } else {
      FieldText(e, p, [COMMA] + (more + close));
      MoreFieldsText([QUOTE] + e + [QUOTE] + [COLON] + p, more, close);
    }
  }

  lemma {:induction false} FieldsInvert(fields: seq<Field>, rest: Bytes)
    requires fields != [] && forall i :: 0 <= i < |fields| ==> WellFormed(fields[i].value)
    ensures ParseFields(PrintFields(fields) + ([CLOSE_BRACE] + rest)) == Some((fields, rest))
    decreases fields, 0
  {
    hide ParseFields, ParseValue, ParseChars, PrintFields, Print, Escape;
    var close := [CLOSE_BRACE] + rest;
    var f := fields[0];
    var tail := if |fields| == 1 then close else [COMMA] + (PrintFields(fields[1..]) + close);
    var colon := [COLON] + (Print(f.value) + tail);
    FieldsText(fields, close);
    CharsInvert(f.name, colon);
    assert colon[1..] == Print(f.value) + tail;
    ValueInverts(f.value, tail);
    var s := PrintFields(fields) + close;
    if |fields| == 1 {
      assert close[1..] == rest;
      FieldsStep(s, f, colon, tail, [], rest);
      assert fields == [f] + [];
    } else {
      assert tail[1..] == PrintFields(fields[1..]) + close;
      FieldsBegin(fields[1..], close);
      FieldsInvert(fields[1..], rest);
      FieldsStep(s, f, colon, tail, fields[1..], rest);
      assert fields == [f] + fields[1..];
    }
  }

  /** The inverse law of the printer and the parser. */
  lemma {:induction false} ParseInvertsPrint(v: Json)
    requires WellFormed(v)
    ensures Parse(Print(v)) == Some(v)
  {
    ValueInverts(v, []);
    assert Print(v) + [] == Print(v);
  }

  // ----- what printed text looks like -----

  /** Printed text has no control character, and is text if its strings are. */
  predicate IsClean(s: Bytes) {
    (forall i :: 0 <= i < |s| ==> s[i] >= 32) && Utf8.Valid(s)
  }

  predicate IsText(v: Json)
    decreases v
  {
    match v
    case Str(s) => Utf8.Valid(s)
    case Arr(items) => forall i :: 0 <= i < |items| ==> IsText(items[i])
    case Obj(fields) => forall i :: 0 <= i < |fields| ==> Utf8.Valid(fields[i].name) && IsText(fields[i].value)
    case _ => true
  }

  lemma {:induction false} CleanAppend(a: Bytes, b: Bytes)
    requires IsClean(a) && IsClean(b)
    ensures IsClean(a + b)
  {
    Utf8.ValidAppend(a, b);
  }

  lemma {:induction false} CleanAscii(s: Bytes)
    requires forall i :: 0 <= i < |s| ==> 32 <= s[i] < 128
    ensures IsClean(s)
  {
    Utf8.AsciiIsValid(s);
  }

  lemma {:induction false} EscapeIsClean(s: Bytes)
    requires Utf8.Valid(s)
    ensures IsClean(Escape(s))
    decreases |s|
  {
    if s != [] {
      var n := Utf8.Lead(s);
      EscapeIsClean(s[n..]);
      EscapeSplit(s, n);
      EscapeLead(s, n);
      CleanAppend(Escape(s[..n]), Escape(s[n..]));
    }
  }

  lemma {:induction false} EscapeSplit(s: Bytes, n: nat)
    requires n <= |s|
    ensures Escape(s) == Escape(s[..n]) + Escape(s[n..])
  {
    if n == 0 {
      assert s[..0] == [] && s[0..] == s;
    } else {
      EscapeSplit(s[1..], n - 1);
      assert s[1..][..n - 1] == s[..n][1..] && s[1..][n - 1..] == s[n..];
    }
  }

  /** One character: an ASCII one escaped if need be, any other left as it is. */
  lemma {:induction false} EscapeLead(s: Bytes, n: nat)
    requires s != [] && n == Utf8.Lead(s) && n > 0
    ensures IsClean(Escape(s[..n]))
  {
    var c := s[..n];
    if n == 1 {
      assert c == [s[0]] && c[1..] == [];
      assert Escape(c) == EscapeByte(s[0]);
      CleanAscii(Escape(c));
    } else {
      EscapeHigh(c);
      assert Utf8.Lead(c) == n && c[n..] == [];
    }
  }

  lemma {:induction false} EscapeHigh(s: Bytes)
    requires forall i :: 0 <= i < |s| ==> s[i] >= 128
    ensures Escape(s) == s
  {
    if s != [] {
      EscapeHigh(s[1..]);
    }
  }

  predicate IsPlain(s: Bytes) {
    forall i :: 0 <= i < |s| ==> 32 <= s[i] < 128
  }

  lemma {:induction false} PlainCons(s: Bytes)
    requires s != [] && 32 <= s[0] < 128 && IsPlain(s[1..])
    ensures IsPlain(s)
  {
    forall i | 0 <= i < |s| ensures 32 <= s[i] < 128 {
      assert i > 0 ==> s[i] == s[1..][i - 1];
    }
  }

  lemma {:induction false} DigitsPlain(s: Bytes)
    requires IsPlain(AfterDigits(s))
    ensures IsPlain(s)
  {
    if s != [] && IsDigit(s[0]) {
      DigitsPlain(s[1..]);
      PlainCons(s);
    }
  }

  lemma {:induction false} NumberClean(t: Bytes)
    requires IsNumber(t)
    ensures IsClean(t)
  {
    var s := if Starts(t, 45) then t[1..] else t;
    var u := AfterInt(s).value;
    var w := AfterFraction(u).value;
    if Starts(w, 101) || Starts(w, 69) {
      var x := w[1..];
      DigitsPlain(if Starts(x, 43) || Starts(x, 45) then x[1..] else x);
      if Starts(x, 43) || Starts(x, 45) {
        PlainCons(x);
      }
      PlainCons(w);
    }
    if Starts(u, 46) {
      DigitsPlain(u[1..]);
      PlainCons(u);
    }
    if !Starts(s, 48) {
      DigitsPlain(s[1..]);
    }
    PlainCons(s);
    if Starts(t, 45) {
      PlainCons(t);
    }
    CleanAscii(t);
  }

  lemma {:induction false} PrintStringClean(s: Bytes)
    requires Utf8.Valid(s)
    ensures IsClean(PrintString(s))
  {
    EscapeIsClean(s);
    CleanAscii([QUOTE]);
    CleanAppend([QUOTE], Escape(s));
    CleanAppend([QUOTE] + Escape(s), [QUOTE]);
  }

  lemma {:induction false} PrintIsClean(v: Json)
    requires WellFormed(v) && IsText(v)
    ensures IsClean(Print(v))
    decreases v, 1
  {
    match v
    case Number(text) => NumberClean(text);
    case Str(s) => PrintStringClean(s);
    case Arr(items) =>
      ItemsClean(items);
      CleanAscii([OPEN_BRACKET]);
      CleanAscii([CLOSE_BRACKET]);
      CleanAppend([OPEN_BRACKET], PrintItems(items));
      CleanAppend([OPEN_BRACKET] + PrintItems(items), [CLOSE_BRACKET]);
    case Obj(fields) =>
      FieldsClean(fields);
      CleanAscii([OPEN_BRACE]);
      CleanAscii([CLOSE_BRACE]);
      CleanAppend([OPEN_BRACE], PrintFields(fields));
      CleanAppend([OPEN_BRACE] + PrintFields(fields), [CLOSE_BRACE]);
    case _ => CleanAscii(Print(v));
  }

  lemma {:induction false} ItemsClean(items: seq<Json>)
    requires forall i :: 0 <= i < |items| ==> WellFormed(items[i]) && IsText(items[i])
    ensures IsClean(PrintItems(items))
    decreases items, 0
  {
    if items != [] {
      PrintIsClean(items[0]);
      if |items| > 1 {
        ItemsClean(items[1..]);
        CleanAscii([COMMA]);
        CleanAppend(Print(items[0]), [COMMA]);
        CleanAppend(Print(items[0]) + [COMMA], PrintItems(items[1..]));
      }
    }
  }

  lemma {:induction false} FieldsClean(fields: seq<Field>)
    requires forall i :: 0 <= i < |fields| ==>
               WellFormed(fields[i].value) && Utf8.Valid(fields[i].name) && IsText(fields[i].value)
    ensures IsClean(PrintFields(fields))
    decreases fields, 0
  {
    if fields != [] {
      var f := fields[0];
      PrintStringClean(f.name);
      PrintIsClean(f.value);
      CleanAscii([COLON]);
      CleanAppend(PrintString(f.name), [COLON]);
      CleanAppend(PrintString(f.name) + [COLON], Print(f.value));
      if |fields| > 1 {
        var first := PrintString(f.name) + [COLON] + Print(f.value);
        FieldsClean(fields[1..]);
        CleanAscii([COMMA]);
        CleanAppend(first, [COMMA]);
        CleanAppend(first + [COMMA], PrintFields(fields[1..]));
      }
    }
  }

  // ----- the parts that printer and parser could get wrong together -----

  /** The short escapes (section 7 of RFC 8259), and the long one with two hexadecimal figures. */
  lemma {:induction false} EscapesAreStandard()
    ensures EscapeByte(34) == Ascii("\\\"") && EscapeByte(92) == Ascii("\\\\")
    ensures EscapeByte(8) == Ascii("\\b") && EscapeByte(9) == Ascii("\\t") && EscapeByte(10) == Ascii("\\n")
    ensures EscapeByte(12) == Ascii("\\f") && EscapeByte(13) == Ascii("\\r")
    ensures EscapeByte(0) == Ascii("\\u0000") && EscapeByte(31) == Ascii("\\u001f")
    ensures forall c: Byte :: c >= 32 && c != 34 && c != 92 ==> EscapeByte(c) == [c]
  {
  }

  lemma {:induction false} OnlySpace(s: Bytes)
    ensures SkipSpace(s) == [] <==> forall i :: 0 <= i < |s| ==> IsSpace(s[i])
  {
    if s != [] {
      OnlySpace(s[1..]);
      if forall i :: 0 <= i < |s| ==> IsSpace(s[i]) {
        assert forall i :: 0 <= i < |s[1..]| ==> s[1..][i] == s[i + 1];
      }
      if IsSpace(s[0]) && forall i :: 0 <= i < |s[1..]| ==> IsSpace(s[1..][i]) {
        forall i | 0 <= i < |s| ensures IsSpace(s[i]) {
          assert i > 0 ==> s[i] == s[1..][i - 1];
        }
      }
    }
  }

  /** Behind the value of a text nothing may stand but space. */
  lemma {:induction false} NothingBehind(s: Bytes, v: Json)
    ensures Parse(s) == Some(v) <==>
              exists rest: Bytes :: ParseValue(s) == Some((v, rest)) && forall i :: 0 <= i < |rest| ==> rest[i] in {32, 9, 10, 13}
  {
    hide ParseValue;
    if ParseValue(s).Some? {
      OnlySpace(ParseValue(s).value.1);
    }
  }
}
