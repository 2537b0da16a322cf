/** Building one-field payloads in a character buffer, and why the recogniser accepts them. */
module JsonPayload {
  import opened Collections
  import opened Options
  import opened Json
  import opened JsonRecogniser

  const PAYLOAD_BUFFER := MAX_PAYLOAD + 1
  const FIELD_OVERHEAD := 7

  /** The payload that takes the place of one that cannot be carried. */
  function Truncated(reason: string): string { "{\"truncated\":true,\"reason\":\"" + (reason + "\"}") }

  const KEY_TOO_LONG := Truncated("payload_json_key_too_long")
  const PAYLOAD_TOO_LONG := Truncated("payload_json_exceeds_256_bytes")
  const PAYLOAD_INVALID := Truncated("payload_json_invalid")

  function SafeChar(c: char): char { if c < ' ' || c > '~' || c == '"' || c == '\\' then '_' else c }

  function Sanitized(value: string, limit: nat): string {
    seq(if |value| <= limit then |value| else limit, i requires 0 <= i < |value| => SafeChar(value[i]))
  }

  function OrElse(text: Option<string>, default: string): string { if text.None? then default else text.value }

  function Field(key: string, value: string): string { "{\"" + (key + ("\":\"" + (value + "\"}"))) }

  /** What a buffer of `size` characters ends up holding. */
  function StringPayload(size: nat, key: string, value: string): string
    requires size > 0
  {
    if |key| + FIELD_OVERHEAD >= size - 1 then Cut(KEY_TOO_LONG, size - 1)
    else Field(key, Sanitized(value, size - 1 - |key| - FIELD_OVERHEAD))
  }

  // ---- In the buffer ----

  /** The characters before the first NUL. */
  function TextOf(buffer: seq<char>): string {
    if buffer == [] || buffer[0] == '\0' then "" else [buffer[0]] + TextOf(buffer[1..])
  }

  ghost predicate NulFree(s: string) { forall i :: 0 <= i < |s| ==> s[i] != '\0' }

  lemma {:induction false} TextIs(buffer: seq<char>, text: string)
    requires NulFree(text) && |text| < |buffer| && buffer[..|text|] == text && buffer[|text|] == '\0'
    ensures TextOf(buffer) == text
    decreases |text|
  {
    if text != "" {
      assert buffer[0] == text[0];
      TextIs(buffer[1..], text[1..]);
      assert text == [text[0]] + text[1..];
    }
  }

  method CopyEventString(destination: array<char>, size: nat, source: string)
    requires size <= destination.Length && NulFree(source)
    modifies destination
    ensures size > 0 ==> TextOf(destination[..]) == Cut(source, size - 1)
  {
    if size == 0 { return; }
    var text := Cut(source, size - 1);
    for i := 0 to |text|
      invariant destination[..i] == text[..i]
    {
      destination[i] := text[i];
    }
    destination[|text|] := '\0';
    assert destination[..|text|] == text;
    TextIs(destination[..], text);
  }

  method SanitizeJsonValue(destination: array<char>, size: nat, value: string)
    requires size > 0 ==> |Sanitized(value, size - 1)| < destination.Length
    modifies destination
    ensures size > 0 ==> TextOf(destination[..]) == Sanitized(value, size - 1)
  {
    if size == 0 { return; }
    ghost var text := Sanitized(value, size - 1);
    var index := 0;
    while index < |value| && index < size - 1
      invariant 0 <= index <= |text|
      invariant destination[..index] == text[..index]
    {
      destination[index] := SafeChar(value[index]);
      index := index + 1;
    }
    destination[index] := '\0';
    assert destination[..|text|] == text;
    TextIs(destination[..], text);
  }

  method ReadText(buffer: array<char>) returns (text: string)
    ensures text == TextOf(buffer[..])
  {
    text := "";
    var i := 0;
    while i < buffer.Length && buffer[i] != '\0'
      invariant 0 <= i <= buffer.Length && TextOf(buffer[..]) == text + TextOf(buffer[i..])
    {
      assert buffer[i..][1..] == buffer[i + 1..];
      text := text + [buffer[i]];
      i := i + 1;
    }
  }

  /** The sanitised value fits the local buffer it is put in first. */
  predicate ValueFits(size: nat, key: string, value: string) {
    size > |key| + FIELD_OVERHEAD + 1 ==> |Sanitized(value, size - 1 - |key| - FIELD_OVERHEAD)| < PAYLOAD_BUFFER
  }

  method MakeStringPayload(destination: array<char>, size: nat, key: Option<string>, value: Option<string>)
    requires size <= destination.Length && NulFree(OrElse(key, "value"))
    // A longer value overruns the local buffer, which only a destination of more than 264 characters has room for.
    requires ValueFits(size, OrElse(key, "value"), OrElse(value, ""))
    modifies destination
    ensures size > 0 ==> TextOf(destination[..]) == StringPayload(size, OrElse(key, "value"), OrElse(value, ""))
  {
    if size == 0 { return; }
    var safeKey := OrElse(key, "value");
    if |safeKey| + FIELD_OVERHEAD >= size - 1 {
      CopyEventString(destination, size, KEY_TOO_LONG);
      return;
    }
    var safeValue := new char[PAYLOAD_BUFFER](_ => '\0');
    var maxValue := size - 1 - |safeKey| - FIELD_OVERHEAD;
    SanitizeJsonValue(safeValue, maxValue + 1, OrElse(value, ""));
    var text := ReadText(safeValue);
    CopyEventString(destination, size, Field(safeKey, text));
  }

  // ---- Acceptance ----

  ghost predicate Clean(s: string) { forall i :: 0 <= i < |s| ==> ItemOk(Plain(s[i])) }

  function PlainItems(s: string): seq<Item> { seq(|s|, i requires 0 <= i < |s| => Plain(s[i])) }

  lemma {:induction false} PutPlain(s: string, rest: string)
    requires Clean(s)
    ensures ItemsOk(PlainItems(s)) && PutItems(PlainItems(s), rest) == s + rest
    decreases |s|
  {
    if s == "" {
      assert s + rest == rest;
    } else {
      PutPlain(s[1..], rest);
      assert PlainItems(s)[1..] == PlainItems(s[1..]);
      assert s + rest == [s[0]] + (s[1..] + rest);
    }
  }

  lemma AcceptedObject(o: Object)
    requires ObjectOk(o) && |Render(o)| <= MAX_PAYLOAD
    ensures Accepted(Render(o))
  {
    AcceptedExactly(Render(o));
  }

  lemma NothingBefore(s: string)
    ensures "" + s == s && s + "" == s
  {
  }

  /** A member written without white space. */
  lemma PutTight(key: string, v: Value, rest: string)
    requires Clean(key) && ValueOk(v)
    ensures var m := Member("", PlainItems(key), "", "", v, "");
            MemberOk(m) && PutMember(m, rest) == ['"'] + (key + (['"'] + ([':'] + PutValue(v, rest))))
  {
    NothingBefore(rest);
    NothingBefore(PutValue(v, rest));
    NothingBefore([':'] + PutValue(v, rest));
    PutPlain(key, ['"'] + ([':'] + PutValue(v, rest)));
    NothingBefore(PutString(PlainItems(key), [':'] + PutValue(v, rest)));
  }

  lemma RenderTight(ms: seq<Member>)
    ensures Render(Object("", "", ms, "")) == ['{'] + PutMembers(ms, ['}'])
  {
    NothingBefore(['}']);
    NothingBefore(PutMembers(ms, ['}']));
    NothingBefore(['{'] + PutMembers(ms, ['}']));
  }

  lemma FieldAccepted(key: string, value: string)
    requires Clean(key) && Clean(value) && |key| + FIELD_OVERHEAD + |value| <= MAX_PAYLOAD
    ensures Accepted(Field(key, value))
  {
    PutPlain(value, ['"'] + ['}']);
    var v := Text(PlainItems(value));
    var m := Member("", PlainItems(key), "", "", v, "");
    PutTight(key, v, ['}']);
    RenderTight([m]);
    assert PutValue(v, ['}']) == "\"" + (value + "\"}");
    assert ['"'] + ([':'] + PutValue(v, ['}'])) == "\":\"" + (value + "\"}");
    assert Render(Object("", "", [m], "")) == Field(key, value);
    AcceptedObject(Object("", "", [m], ""));
  }

  lemma PutReason(reason: string)
    requires Clean(reason)
    ensures var why := Member("", PlainItems("reason"), "", "", Text(PlainItems(reason)), "");
            MemberOk(why) && PutMember(why, ['}']) == "\"reason\":\"" + (reason + "\"}")
  {
    PutPlain(reason, ['"'] + ['}']);
    var v := Text(PlainItems(reason));
    assert PutValue(v, ['}']) == "\"" + (reason + "\"}");
    PutTight("reason", v, ['}']);
  }

  lemma TwoMembers(first: Member, second: Member, rest: string)
    ensures PutMembers([first, second], rest) == PutMember(first, [','] + PutMember(second, rest))
  {
    assert [first, second][1..] == [second];
  }

  lemma TruncatedTail(x: string)
    ensures ['"'] + ([':'] + ("true" + ([','] + ("\"reason\":\"" + x)))) == "\":true,\"reason\":\"" + x
  {
    assert [','] + ("\"reason\":\"" + x) == ",\"reason\":\"" + x;
    assert "true" + (",\"reason\":\"" + x) == "true,\"reason\":\"" + x;
    assert [':'] + ("true,\"reason\":\"" + x) == ":true,\"reason\":\"" + x;
  }

  lemma TruncatedText(x: string)
    ensures ['{'] + (['"'] + ("truncated" + (['"'] + ([':'] + ("true" + ([','] + ("\"reason\":\"" + x)))))))
            == "{\"truncated\":true,\"reason\":\"" + x
  {
    TruncatedTail(x);
    assert "truncated" + ("\":true,\"reason\":\"" + x) == "truncated\":true,\"reason\":\"" + x;
    assert ['"'] + ("truncated\":true,\"reason\":\"" + x) == "\"truncated\":true,\"reason\":\"" + x;
  }

  lemma TruncatedAccepted(reason: string)
    requires Clean(reason) && |reason| <= 200
    ensures Accepted(Truncated(reason))
  {
    var flag := Member("", PlainItems("truncated"), "", "", Word("true"), "");
    var why := Member("", PlainItems("reason"), "", "", Text(PlainItems(reason)), "");
    var tail := "\"reason\":\"" + (reason + "\"}");
    PutReason(reason);
    PutTight("truncated", Word("true"), [','] + tail);
    RenderTight([flag, why]);
    TwoMembers(flag, why, ['}']);
    TruncatedText(reason + "\"}");
    AcceptedObject(Object("", "", [flag, why], ""));
  }

  // ---- The builder's promise ----

  /** Printable ASCII that needs no escape. */
  predicate Harmless(c: char) { 0x20 <= c as int <= 0x7E && c != '"' && c != '\\' }

  /** Character by character a harmless value stays as it is, and everything else becomes an underscore. */
  lemma SanitizedAt(value: string, limit: nat, i: nat)
    requires i < |value| && i < limit
    ensures i < |Sanitized(value, limit)| == (if |value| < limit then |value| else limit)
    ensures Sanitized(value, limit)[i] == if Harmless(value[i]) then value[i] else '_'
  {
  }

  /** A harmless value that fits is carried unchanged. */
  lemma HarmlessValueIsCarried(size: nat, key: string, value: string)
    requires |key| + |value| + 7 < size && |key| + 8 < size && forall i :: 0 <= i < |value| ==> Harmless(value[i])
    ensures StringPayload(size, key, value) == "{\"" + key + "\":\"" + value + "\"}"
  {
    var limit := size - 1 - |key| - 7;
    forall i | 0 <= i < |value|
      ensures Sanitized(value, limit)[i] == value[i]
    {
      SanitizedAt(value, limit, i);
    }
    assert Sanitized(value, limit) == value;
  }

  /** A key that leaves no room is replaced by the reason why, as far as it fits. */
  lemma LongKeyIsReplaced(size: nat, key: string, value: string)
    requires 0 < size <= |key| + 8
    ensures StringPayload(size, key, value) <= Truncated("payload_json_key_too_long")
    ensures |StringPayload(size, key, value)| == if size < 56 then size - 1 else 55
  {
    assert |KEY_TOO_LONG| == 55;
  }

  lemma SanitizedIsClean(value: string, limit: nat)
    ensures Clean(Sanitized(value, limit)) && |Sanitized(value, limit)| <= limit
  {
  }

  /** With a clean key and the usual buffer, every value makes an accepted payload. */
  lemma EveryValueAccepted(key: string, value: string)
    requires Clean(key)
    ensures Accepted(StringPayload(PAYLOAD_BUFFER, key, value))
  {
    if |key| + FIELD_OVERHEAD >= MAX_PAYLOAD {
      TruncatedAccepted("payload_json_key_too_long");
    } else {
      var limit := MAX_PAYLOAD - |key| - FIELD_OVERHEAD;
      SanitizedIsClean(value, limit);
      FieldAccepted(key, Sanitized(value, limit));
    }
  }

  // ---- Smaller buffers ----

  lemma {:induction false} ItemsKeepRest(items: seq<Item>, rest: string, c: char)
    requires c in rest
    ensures c in PutItems(items, rest)
    decreases |items|
  {
    if items != [] { ItemsKeepRest(items[1..], rest, c); }
  }

  lemma ValueKeepsRest(v: Value, rest: string, c: char)
    requires c in rest
    ensures c in PutValue(v, rest)
  {
    if v.Text? { ItemsKeepRest(v.items, ['"'] + rest, c); }
  }

  lemma MemberKeepsRest(m: Member, rest: string, c: char)
    requires c in rest
    ensures c in PutMember(m, rest)
  {
    ValueKeepsRest(m.value, m.after + rest, c);
    ItemsKeepRest(m.key, ['"'] + (m.beforeColon + ([':'] + (m.beforeValue + PutValue(m.value, m.after + rest)))), c);
  }

  lemma {:induction false} MembersKeepRest(ms: seq<Member>, rest: string, c: char)
    requires c in rest
    ensures c in PutMembers(ms, rest)
    decreases |ms|
  {
    if |ms| > 1 { MembersKeepRest(ms[1..], rest, c); }
    if ms != [] { MemberKeepsRest(ms[0], if |ms| == 1 then rest else [','] + PutMembers(ms[1..], rest), c); }
  }

  lemma AcceptedHasBrace(s: string)
    requires Accepted(s)
    ensures '}' in s
  {
    AcceptedExactly(s);
    var o :| ObjectOk(o) && Render(o) == s;
    MembersKeepRest(o.members, ['}'] + o.trail, '}');
  }

  lemma OnlyTheLastBrace(reason: string)
    requires '}' !in reason
    ensures forall i :: 0 <= i < |Truncated(reason)| - 1 ==> Truncated(reason)[i] != '}'
  {
  }

  /** A clean key makes an accepted payload exactly when the key fits or the replacement does. */
  lemma AcceptedExactlyWhenItFits(size: nat, key: string, value: string)
    requires 0 < size <= PAYLOAD_BUFFER && Clean(key)
    ensures Accepted(StringPayload(size, key, value)) <==>
              |key| + FIELD_OVERHEAD < size - 1 || |KEY_TOO_LONG| <= size - 1
  {
    if |key| + FIELD_OVERHEAD < size - 1 {
      var limit := size - 1 - |key| - FIELD_OVERHEAD;
      SanitizedIsClean(value, limit);
      FieldAccepted(key, Sanitized(value, limit));
    } else if |KEY_TOO_LONG| <= size - 1 {
      TruncatedAccepted("payload_json_key_too_long");
    } else {
      OnlyTheLastBrace("payload_json_key_too_long");
      if Accepted(KEY_TOO_LONG[..size - 1]) { AcceptedHasBrace(KEY_TOO_LONG[..size - 1]); }
    }
  }
}
