/** Events from the emitting call to the callback of the other side. */
module Events {
  import opened Common
  import Codec = SocketCodec
  import Json
  import JsonProofs
  import Proofs = SocketCodecProofs
  import Utf8

  datatype Event = Message | Error | Custom(name: Bytes) | Connect | Close

  /** What is emitted, and what a callback receives. */
  datatype Payload = Text(values: seq<Json.Json>) | Binary(bytes: Bytes)

  /** What the handler of an event packet does: nothing, an error event, or one callback. */
  datatype Delivery = Nothing | Refused(error: Common.Error) | Deliver(event: Event, payload: Payload, id: Option<int>)

  // ----- event names -----

  /** The name a text packet carries. */
  function AsStr(e: Event): Bytes {
    match e
    case Message => Ascii("message")
    case Error => Ascii("error")
    case Connect => Ascii("connect")
    case Close => Ascii("close")
    case Custom(name) => name
  }

  /** The name a binary packet carries; it differs for `Connect`. */
  function IntoString(e: Event): Bytes {
    if e.Connect? then Ascii("open") else AsStr(e)
  }

  /** ASCII letters only: no other character has a lower case among the letters compared here. */
  function LowerByte(c: Byte): Byte {
    if 65 <= c <= 90 then c + 32 else c
  }

  function Lower(s: Bytes): (r: Bytes)
    ensures |r| == |s|
  {
    if s == [] then [] else [LowerByte(s[0])] + Lower(s[1..])
  }

  function FromString(s: Bytes): Event {
    if Lower(s) == Ascii("message") then Message
    else if Lower(s) == Ascii("error") then Error
    else if Lower(s) == Ascii("open") then Connect
    else if Lower(s) == Ascii("close") then Close
    else Custom(s)
  }

  /** The four names that mean an event of their own, in any case. */
  predicate IsReserved(s: Bytes) {
    Lower(s) in {Ascii("message"), Ascii("error"), Ascii("open"), Ascii("close")}
  }

  // ----- building packets -----

  function NewFromPayload(payload: Payload, event: Event, nsp: Bytes, id: Option<int>): Codec.Packet {
    match payload
    case Binary(bytes) =>
      Codec.Packet(if id.Some? then Codec.BinaryAck else Codec.BinaryEvent, nsp,
                   Some(Json.Print(Json.Str(IntoString(event)))), id, 1, Some([bytes]))
    case Text(values) =>
      Codec.Packet(Codec.Event, nsp, Some(Json.Print(Json.Arr([Json.Str(AsStr(event))] + values))), id, 0, None)
  }

  function AckFromPayload(payload: Payload, nsp: Bytes, id: Option<int>): Codec.Packet {
    match payload
    case Binary(bytes) => Codec.Packet(Codec.BinaryAck, nsp, None, id, 1, Some([bytes]))
    case Text(values) => Codec.Packet(Codec.Ack, nsp, Some(Json.Print(Json.Arr(values))), id, 0, None)
  }

  // ----- dispatching packets -----

  /** An array names its event only if it has more than one element and begins with a string. */
  function HandleEvent(p: Codec.Packet): Delivery {
    if p.data.None? then Nothing
    else match Json.Parse(p.data.value)
      case Some(Arr(contents)) =>
        if contents == [] then Refused(IncompletePacket)
        else if |contents| > 1 && contents[0].Str? then
          Deliver(FromString(contents[0].s), Text(contents[1..]), p.id)
        else Deliver(Message, Text(contents), p.id)
      case _ => Nothing
  }

  function WithoutQuotes(s: Bytes): Bytes {
    if s == [] then [] else (if s[0] == Json.QUOTE then [] else [s[0]]) + WithoutQuotes(s[1..])
  }

  function HandleBinaryEvent(p: Codec.Packet): Delivery {
    var event := if p.data.Some? then FromString(WithoutQuotes(p.data.value)) else Message;
    if p.attachments.Some? && p.attachments.value != [] then Deliver(event, Binary(p.attachments.value[0]), p.id)
    else Nothing
  }

  /** What the handler of an event packet does, whatever the packet holds. */
  lemma {:induction false} HandlesEvent(p: Codec.Packet)
    ensures p.data.None? || Json.Parse(p.data.value).None? || !Json.Parse(p.data.value).value.Arr? ==> HandleEvent(p) == Nothing
    ensures forall items: seq<Json.Json> :: p.data.Some? && Json.Parse(p.data.value) == Some(Json.Arr(items)) ==>
              && (items == [] ==> HandleEvent(p) == Refused(IncompletePacket))
              && (|items| == 1 ==> HandleEvent(p) == Deliver(Message, Text(items), p.id))
              && (|items| > 1 && items[0].Str? ==>
                    HandleEvent(p) == Deliver(FromString(items[0].s), Text(items[1..]), p.id))
              && (|items| > 1 && !items[0].Str? ==> HandleEvent(p) == Deliver(Message, Text(items), p.id))
  {
    hide Json.Parse, FromString;
  }

  /** A binary event goes with its first attachment; without a name to Message, without an attachment nowhere. */
  lemma {:induction false} HandlesBinaryEvent(p: Codec.Packet)
    ensures p.attachments.None? || p.attachments.value == [] ==> HandleBinaryEvent(p) == Nothing
    ensures forall first: Bytes, more: seq<Bytes> :: p.attachments == Some([first] + more) ==>
              && HandleBinaryEvent(p).Deliver? && HandleBinaryEvent(p).payload == Binary(first)
              && HandleBinaryEvent(p).id == p.id
              && (p.data.None? ==> HandleBinaryEvent(p).event == Message)
  {
    hide FromString;
  }

  // ----- names that mean an event -----

  /** The text is this word of small letters, in any case. */
  ghost predicate Spells(s: Bytes, word: string) {
    |s| == |word| && forall i :: 0 <= i < |s| ==> s[i] == word[i] as int || s[i] as int + 32 == word[i] as int
  }

  lemma {:induction false} LowerAt(s: Bytes)
    ensures forall i :: 0 <= i < |s| ==> Lower(s)[i] == LowerByte(s[i])
  {
    if s != [] {
      LowerAt(s[1..]);
    }
  }

  lemma {:induction false} LowerSpells(s: Bytes, word: string)
    requires forall i :: 0 <= i < |word| ==> 97 <= word[i] as int <= 122
    ensures Lower(s) == Ascii(word) <==> Spells(s, word)
  {
    LowerAt(s);
    hide Lower;
    if Lower(s) == Ascii(word) {
      assert forall i :: 0 <= i < |s| ==> LowerByte(s[i]) == word[i] as int;
    }
    if Spells(s, word) {
      forall i | 0 <= i < |s| ensures Lower(s)[i] == Ascii(word)[i] {
        assert LowerByte(s[i]) == word[i] as int;
      }
    }
  }

  /** The four words that a received name is compared with, in any case; any other name stays as it is. */
  lemma {:induction false} ReservedNames(s: Bytes)
    ensures FromString(s) == Message <==> Spells(s, "message")
    ensures FromString(s) == Error <==> Spells(s, "error")
    ensures FromString(s) == Connect <==> Spells(s, "open")
    ensures FromString(s) == Close <==> Spells(s, "close")
    ensures FromString(s).Custom? ==> FromString(s) == Custom(s)
  {
    LowerSpells(s, "message");
    LowerSpells(s, "error");
    LowerSpells(s, "open");
    LowerSpells(s, "close");
    NamesDiffer();
    hide Lower, Ascii, Spells;
  }

  /** The words that are sent. */
  lemma {:induction false} SentNames()
    ensures Spells(AsStr(Message), "message") && Spells(AsStr(Error), "error")
    ensures Spells(AsStr(Close), "close") && Spells(AsStr(Connect), "connect") && Spells(IntoString(Connect), "open")
    ensures forall e: Event :: !e.Connect? ==> IntoString(e) == AsStr(e)
    ensures forall name: Bytes :: AsStr(Custom(name)) == name
  {
    hide LowerByte;
  }

  // ----- text events -----

  /** What the source's types say of an event name, a namespace and arguments. */
  ghost predicate Emittable(event: Event, values: seq<Json.Json>, nsp: Bytes, id: Option<int>) {
    && Utf8.Valid(AsStr(event))
    && (forall i :: 0 <= i < |values| ==> JsonProofs.WellFormed(values[i]) && JsonProofs.IsText(values[i]))
    && Utf8.Valid(nsp) && Proofs.NamespaceReady(nsp) && Proofs.IdReady(id)
  }

  lemma {:induction false} WordIsText(word: string)
    requires forall i :: 0 <= i < |word| ==> word[i] as int < 128
    ensures Utf8.Valid(Ascii(word))
  {
    Utf8.AsciiIsValid(Ascii(word));
  }

  lemma {:induction false} MessageIsText()
    ensures Utf8.Valid(AsStr(Message))
  {
    hide Ascii, Utf8.Valid;
    WordIsText("message");
  }

  lemma {:induction false} ArraySurvives(kind: Codec.Kind, values: seq<Json.Json>, nsp: Bytes, id: Option<int>)
    requires !Codec.IsBinary(kind) && Emittable(Message, values, nsp, id)
    ensures var p := Codec.Packet(kind, nsp, Some(Json.Print(Json.Arr(values))), id, 0, None);
            Codec.Decoded(Codec.Text(p)) == Ok(p) && Json.Parse(p.data.value) == Some(Json.Arr(values))
  {
    var p := Codec.Packet(kind, nsp, Some(Json.Print(Json.Arr(values))), id, 0, None);
    JsonProofs.ParseInvertsPrint(Json.Arr(values));
    JsonProofs.PrintBegins(Json.Arr(values));
    JsonProofs.PrintIsClean(Json.Arr(values));
    Proofs.TextRoundTrip(p);
  }

  lemma {:induction false} LowerOfLower(s: Bytes)
    requires forall i :: 0 <= i < |s| ==> s[i] >= 97
    ensures Lower(s) == s
  {
    if s != [] {
      LowerOfLower(s[1..]);
    }
  }

  lemma {:induction false} LowerWord(word: string)
    requires forall i :: 0 <= i < |word| ==> 97 <= word[i] as int < 128
    ensures Lower(Ascii(word)) == Ascii(word)
  {
    LowerOfLower(Ascii(word));
  }

  /** The four names are in lower case already. */
  lemma {:induction false} NamesAreLower()
    ensures Lower(Ascii("message")) == Ascii("message") && Lower(Ascii("error")) == Ascii("error")
    ensures Lower(Ascii("open")) == Ascii("open") && Lower(Ascii("close")) == Ascii("close")
  {
    hide Ascii, Lower;
    LowerWord("message");
    LowerWord("error");
    LowerWord("open");
    LowerWord("close");
  }

  /** They differ, and none has the length of another but for two. */
  lemma {:induction false} NamesDiffer()
    ensures |Ascii("message")| == |Ascii("connect")| == 7 && |Ascii("open")| == 4
    ensures |Ascii("error")| == |Ascii("close")| == 5 && Ascii("error") != Ascii("close")
  {
    assert Ascii("error")[0] != Ascii("close")[0];
  }

  lemma {:induction false} NamesReadBack()
    ensures FromString(IntoString(Message)) == Message && FromString(IntoString(Error)) == Error
    ensures FromString(IntoString(Connect)) == Connect && FromString(IntoString(Close)) == Close
  {
    hide Lower, Ascii;
    NamesAreLower();
    NamesDiffer();
  }

  lemma {:induction false} CustomReadsBack(s: Bytes)
    ensures FromString(s) == Custom(s) <==> !IsReserved(s)
    ensures FromString(s).Custom? ==> FromString(s).name == s
  {
  }

  lemma {:induction false} LongName(s: Bytes)
    requires |s| != |Ascii("open")|
    ensures FromString(s) != Connect
  {
    hide Ascii;
  }

  lemma {:induction false} ConnectIsRenamed()
    ensures FromString(AsStr(Connect)) != Connect
  {
    NamesDiffer();
    LongName(AsStr(Connect));
  }

  /** The name of a text event reads back as the event exactly if it is one the source calls canonical. */
  lemma {:induction false} ReadsName(event: Event)
    ensures FromString(AsStr(event)) == event
       <==> !event.Connect? && (event.Custom? ==> !IsReserved(event.name))
  {
    match event
    case Custom(name) => CustomReadsBack(name);
    case Connect => ConnectIsRenamed();
    case Message => NamesReadBack();
    case Error => NamesReadBack();
    case Close => NamesReadBack();
  }

  lemma {:induction false} DispatchesArray(p: Codec.Packet, name: Bytes, values: seq<Json.Json>)
    requires p.data.Some? && Json.Parse(p.data.value) == Some(Json.Arr([Json.Str(name)] + values))
    ensures HandleEvent(p) == if values == [] then Deliver(Message, Text([Json.Str(name)]), p.id)
                              else Deliver(FromString(name), Text(values), p.id)
  {
    var contents := [Json.Str(name)] + values;
    assert contents[1..] == values;
    assert values == [] ==> contents == [Json.Str(name)];
  }

  /** An event with arguments arrives as sent exactly if its name reads back as itself. */
  lemma {:induction false} TextDelivery(event: Event, values: seq<Json.Json>, nsp: Bytes, id: Option<int>)
    requires Emittable(event, values, nsp, id)
    ensures var p := NewFromPayload(Text(values), event, nsp, id);
            && p.kind == Codec.Event && p.nsp == nsp && p.id == id && p.attachments.None?
            && Codec.Decoded(Codec.Text(p)) == Ok(p)
            && (HandleEvent(p) == Deliver(event, Text(values), id) <==>
                values != [] && !event.Connect? && (event.Custom? ==> !IsReserved(event.name)))
            && (values != [] ==> exists e :: HandleEvent(p) == Deliver(e, Text(values), id))
            && (values == [] ==> HandleEvent(p) == Deliver(Message, Text([Json.Str(AsStr(event))]), id))
  {
    hide Codec.Decoded, Codec.Text, FromString, HandleEvent, AsStr, Json.Parse, Json.Print;
    var name := AsStr(event);
    var p := NewFromPayload(Text(values), event, nsp, id);
    assert Emittable(Message, [Json.Str(name)] + values, nsp, id) by {
      MessageIsText();
    }
    ArraySurvives(Codec.Event, [Json.Str(name)] + values, nsp, id);
    DispatchesArray(p, name, values);
    ReadsName(event);
  }

  /** What an ack must be emitted with: a valid namespace and id, and values that are JSON text. */
  ghost predicate Answerable(payload: Payload, nsp: Bytes, id: Option<int>) {
    Emittable(Message, if payload.Text? then payload.values else [], nsp, id)
  }

  /** An ack arrives as sent, but for the attachment that travels behind its header. */
  lemma {:induction false} AckArrives(payload: Payload, nsp: Bytes, id: Option<int>)
    requires Answerable(payload, nsp, id)
    ensures var p := AckFromPayload(payload, nsp, id);
            && p.kind == (if payload.Text? then Codec.Ack else Codec.BinaryAck) && p.nsp == nsp && p.id == id
            && Codec.Decoded(Codec.Text(p)) == Ok(p.(attachments := None))
            && (payload.Text? ==> p.attachments.None? && Json.Parse(p.data.value) == Some(Json.Arr(payload.values)))
            && (payload.Binary? ==> p.data.None? && p.attachments == Some([payload.bytes]))
  {
    hide Codec.Decoded, Codec.Text, Json.Parse, Json.Print;
    match payload
    case Text(values) => ArraySurvives(Codec.Ack, values, nsp, id);
    case Binary(bytes) => Proofs.EventHeaderRoundTrip(AckFromPayload(payload, nsp, id), None);
  }

  // ----- binary events -----

  lemma {:induction false} WithoutQuotesAppend(a: Bytes, b: Bytes)
    ensures WithoutQuotes(a + b) == WithoutQuotes(a) + WithoutQuotes(b)
  {
    if a == [] {
      assert a + b == b;
    } else {
      assert (a + b)[1..] == a[1..] + b;
      WithoutQuotesAppend(a[1..], b);
    }
  }

  /** One escaped byte without its quotes. */
  lemma {:induction false} ByteWithoutQuotes(c: Byte)
    ensures var w := WithoutQuotes(Json.EscapeByte(c));
            && |w| >= 1
            && (!Json.MustEscape(c) ==> w == [c])
            && (c == Json.QUOTE ==> w == [Json.BACKSLASH])
            && (Json.MustEscape(c) && c != Json.QUOTE ==> |w| >= 2)
  {
    var e := Json.EscapeByte(c);
    assert e == [e[0]] + e[1..];
    if Json.MustEscape(c) {
      assert e[1..] == [e[1]] + e[2..];
      assert WithoutQuotes(e[2..]) == [] || |e| > 2;
    } else {
      assert e[1..] == [];
    }
  }

  lemma {:induction false} EscapedWithoutQuotes(s: Bytes)
    ensures var w := WithoutQuotes(Json.Escape(s));
            |w| >= |s| && (w == s <==> forall i :: 0 <= i < |s| ==> !Json.MustEscape(s[i]))
  {
    if s != [] {
      var c, rest := s[0], s[1..];
      ByteWithoutQuotes(c);
      EscapedWithoutQuotes(rest);
      WithoutQuotesAppend(Json.EscapeByte(c), Json.Escape(rest));
      var head, tail := WithoutQuotes(Json.EscapeByte(c)), WithoutQuotes(Json.Escape(rest));
      var w := WithoutQuotes(Json.Escape(s));
      assert w == head + tail;
      assert forall i :: 0 < i < |s| ==> s[i] == rest[i - 1];
      if !Json.MustEscape(c) {
        assert w[0] == c && w[1..] == tail;
        assert s == [c] + rest;
      } else {
        assert w[0] == head[0];
      }
    }
  }

  /** Dropping the quotes recovers a name exactly if nothing in it had to be escaped. */
  lemma {:induction false} NameRecovered(s: Bytes)
    ensures WithoutQuotes(Json.PrintString(s)) == s <==> forall i :: 0 <= i < |s| ==> !Json.MustEscape(s[i])
  {
    var e := Json.Escape(s);
    var q: Bytes := [Json.QUOTE];
    WithoutQuotesAppend(q + e, q);
    WithoutQuotesAppend(q, e);
    assert q[1..] == [];
    EscapedWithoutQuotes(s);
  }

  /** A name recovered from a binary packet reads back as the event. */
  lemma {:induction false} ReadsBinaryName(event: Event)
    ensures FromString(WithoutQuotes(Json.PrintString(IntoString(event)))) == event
       <==> (event.Custom? ==> !IsReserved(event.name)
                               && forall i :: 0 <= i < |event.name| ==> !Json.MustEscape(event.name[i]))
  {
    var name := IntoString(event);
    NameRecovered(name);
    if event.Custom? {
      CustomReadsBack(WithoutQuotes(Json.PrintString(name)));
    } else {
      assert forall i :: 0 <= i < |name| ==> !Json.MustEscape(name[i]);
      NamesReadBack();
    }
  }

  lemma {:induction false} OpenIsText()
    ensures Utf8.Valid(IntoString(Connect))
  {
    hide Ascii, Utf8.Valid;
    WordIsText("open");
  }

  lemma {:induction false} PrintsString(s: Bytes)
    ensures Json.Print(Json.Str(s)) == Json.PrintString(s)
  {
  }

  /** A binary event arrives as sent exactly if its name is plain and reads back as itself. */
  lemma {:induction false} BinaryDelivery(event: Event, bytes: Bytes, nsp: Bytes)
    requires Emittable(event, [], nsp, None)
    ensures var p := NewFromPayload(Binary(bytes), event, nsp, None);
            && p.kind == Codec.BinaryEvent && p.nsp == nsp && p.id.None? && p.attachments == Some([bytes])
            && Codec.Decoded(Codec.Text(p)) == Ok(p.(attachments := None))
            && (exists e :: HandleBinaryEvent(p) == Deliver(e, Binary(bytes), None))
            && (HandleBinaryEvent(p) == Deliver(event, Binary(bytes), None) <==>
                (event.Custom? ==> !IsReserved(event.name)
                                   && forall i :: 0 <= i < |event.name| ==> !Json.MustEscape(event.name[i])))
  {
    hide Codec.Decoded, Codec.Text, Json.Print, FromString, Ascii;
    var name := IntoString(event);
    var p := NewFromPayload(Binary(bytes), event, nsp, None);
    assert p.data == Some(Json.PrintString(name)) by {
      PrintsString(name);
    }
    assert Utf8.Valid(name) by {
      OpenIsText();
    }
    assert Codec.Decoded(Codec.Text(p)) == Ok(p.(attachments := None)) by {
      JsonProofs.PrintStringClean(name);
      Proofs.EventHeaderRoundTrip(p, Some(name));
    }
    ReadsBinaryName(event);
  }
}
