/** The chat protocol's text formats: the client's encode_msg and handle_output (Assignment-1/tcpclient.c) and the
    server's decode_msg (Assignment-1/tcpserver.c). A NULL from strtok crashes the C program; here it is None. */
module ChatCodec {
  import opened Options
  import opened CStrings

  datatype Message = Message(from: string, to: string, text: string)

  /** What the client shows for a line from the server. */
  datatype Notice =
    | Incoming(from: string, text: string)
    | Ack(sent: bool)
    | Other

  function Encode(m: Message): string {
    m.from + ";" + m.to + ";" + m.text
  }

  function Decode(s: string): Option<Message> {
    var f := Fields(s);
    if |f| < 3 then None else Some(Message(f[0], f[1], f[2]))
  }

  /** The line a listener forwards to its client. */
  function IncomingLine(firstName: string, text: string): string {
    "inc_msg;" + firstName + ";" + text
  }

  function Show(s: string): Option<Notice> {
    var f := Fields(s);
    if |f| == 0 then None
    else if f[0] == "inc_msg" then if |f| < 3 then None else Some(Incoming(f[1], f[2]))
    else if f[0] == "msgack" then if |f| < 2 then None else Some(Ack(Atoi(f[1]) == 1))
    else Some(Other)
  }

  /** What the client sends: the encoded message without its last byte, the newline that fgets keeps. */
  function Sent(m: Message): string
    requires m.text != ""
  {
    Encode(m)[..|Encode(m)| - 1]
  }

  // ---------------------------------------------------------------------------------------------
  // The C functions
  // ---------------------------------------------------------------------------------------------

  /** What is sent, the buffer without its last byte, is decoded as the message without its newline exactly when the
      typed text is not empty and holds no ";". */
  method EncodeMsg(m: Message) returns (s: string)
    ensures s == Encode(m)
    ensures forall text :: IsField(m.from) && IsField(m.to) && m.text == text + "\n" ==>
              (Decode(s[..|s| - 1]) == Some(Message(m.from, m.to, text)) <==> IsField(text))
  {
    hide Decode, IsField;
    s := m.from;
    s := s + ";";
    s := s + m.to;
    s := s + ";";
    s := s + m.text;
    forall text | IsField(m.from) && IsField(m.to) && m.text == text + "\n"
      ensures Decode(Encode(m)[..|Encode(m)| - 1]) == Some(Message(m.from, m.to, text)) <==> IsField(text)
    {
      TypedRoundTripIff(m, text);
    }
  }

  lemma TypedRoundTripIff(m: Message, text: string)
    requires IsField(m.from) && IsField(m.to) && m.text == text + "\n"
    ensures Decode(Encode(m)[..|Encode(m)| - 1]) == Some(Message(m.from, m.to, text)) <==> IsField(text)
  {
    hide Decode, IsField, Encode;
    assert m == Message(m.from, m.to, text + "\n");
    MessageRoundTripIff(m.from, m.to, text);
  }

  method DecodeMsg(s: string) returns (m: Option<Message>)
    requires NUL !in s
    ensures m == Decode(s)
  {
    var t := new StrTok(s);
    TokenFields(s);
    ghost var s1 := AfterToken(s);
    TokenFields(s1);
    TokenFields(AfterToken(s1));
    var from := t.Next();
    if from.None? { return None; }
    var to := t.Next();
    if to.None? { return None; }
    var text := t.Next();
    if text.None? { return None; }
    return Some(Message(from.value, to.value, text.value));
  }

  method HandleOutput(s: string) returns (n: Option<Notice>)
    requires NUL !in s
    ensures n == Show(s)
  {
    var t := new StrTok(s);
    TokenFields(s);
    ghost var s1 := AfterToken(s);
    TokenFields(s1);
    TokenFields(AfterToken(s1));
    var kind := t.Next();
    if kind.None? { return None; }
    if kind.value == "inc_msg" {
      var from := t.Next();
      if from.None? { return None; }
      var text := t.Next();
      if text.None? { return None; }
      return Some(Incoming(from.value, text.value));
    }
    if kind.value == "msgack" {
      var ack := t.Next();
      if ack.None? { return None; }
      return Some(Ack(Atoi(ack.value) == 1));
    }
    return Some(Other);
  }

  // ---------------------------------------------------------------------------------------------
  // Round trips
  // ---------------------------------------------------------------------------------------------

  lemma EncodedFields(a: string, b: string, text: string)
    requires IsField(a) && IsField(b)
    ensures Fields(a + ";" + b + ";" + text) == [a, b] + Fields(text)
  {
    assert a + ";" + b + ";" + text == a + ";" + (b + ";" + text);
    FieldsCons(a, b + ";" + text);
    FieldsCons(b, text);
  }

  /** For any typed text, ended by its newline: the server gets the message back exactly when the text is not empty
      and holds no ";". */
  lemma MessageRoundTripIff(from: string, to: string, text: string)
    requires IsField(from) && IsField(to)
    ensures Decode(Sent(Message(from, to, text + "\n"))) == Some(Message(from, to, text)) <==> IsField(text)
  {
    var m := Message(from, to, text + "\n");
    assert Encode(m) == from + ";" + to + ";" + text + "\n";
    assert Sent(m) == from + ";" + to + ";" + text;
    EncodedFields(from, to, text);
    FieldsAreFields(text);
    if IsField(text) {
      FieldsLast(text);
    }
  }

  /** A reply of two fields, the second of which is 1 or 2. */
  function Reply(kind: string, yes: bool): string {
    kind + ";" + if yes then "1" else "2"
  }

  lemma ReplyFields(kind: string, yes: bool)
    requires IsField(kind)
    ensures var f := Fields(Reply(kind, yes));
            |f| == 2 && f[0] == kind && (Atoi(f[1]) == 1 <==> yes)
  {
    var code := if yes then "1" else "2";
    assert IsField(code);
    FieldsCons(kind, code);
    FieldsLast(code);
    assert code[1..] == "";
    assert Atoi(code) == AtoiFrom("", DigitValue(code[0]));
  }

  /** The acknowledgement of a message is shown as such. */
  lemma AckShown(yes: bool)
    ensures Show(Reply("msgack", yes)) == Some(Ack(yes))
  {
    ReplyFields("msgack", yes);
  }

  /** The forwarded line shows the sender's first name and the text, exactly when the text is a field. */
  lemma IncomingRoundTripIff(firstName: string, text: string)
    requires IsField(firstName)
    ensures Show(IncomingLine(firstName, text)) == Some(Incoming(firstName, text)) <==> IsField(text)
  {
    assert IncomingLine(firstName, text) == "inc_msg" + ";" + firstName + ";" + text;
    EncodedFields("inc_msg", firstName, text);
    FieldsAreFields(text);
    if IsField(text) {
      FieldsLast(text);
    }
  }

  /** Lines of any other kind are shown in their own ways; a line without its fields, or none at all, crashes the
      client. */
  lemma OtherLines(kind: string, rest: string)
    requires IsField(kind) && kind != "inc_msg" && kind != "msgack"
    ensures Show(kind) == Show(kind + ";" + rest) == Some(Other)
    ensures Show("") == Show("msgack") == Show("inc_msg") == Show("inc_msg" + ";" + kind) == None
  {
    hide IsField;
    FieldsCons(kind, rest);
    FieldsLast(kind);
    FieldsOfDelimiter("");
    assert IsField("msgack") && IsField("inc_msg") by { TwoKinds(); }
    FieldsLast("msgack");
    FieldsLast("inc_msg");
    FieldsCons("inc_msg", kind);
    hide Fields;
  }

  lemma TwoKinds()
    ensures IsField("msgack") && IsField("inc_msg")
  {
  }
}
