/** The recogniser as it runs, an index advancing over the text, and what it accepts. */
module JsonRecogniser {
  import opened Options
  import opened Json
  import opened JsonRoundTrip

  // ---- What is left of the text after each construct ----

  function AfterWs(s: string): (rest: string)
    ensures |rest| <= |s|
  {
    if s == "" || !IsWs(s[0]) then s else AfterWs(s[1..])
  }

  function AfterDigits(s: string): (rest: string)
    ensures |rest| <= |s|
  {
    if s == "" || !IsDigit(s[0]) then s else AfterDigits(s[1..])
  }

  function AfterEscape(s: string): (rest: Option<string>)
    ensures rest.Some? ==> |rest.value| < |s|
  {
    if s == "" then None
    else if IsShortEscape(s[0]) then Some(s[1..])
    else if s[0] == 'u' && |s| >= 5 && IsHex(s[1]) && IsHex(s[2]) && IsHex(s[3]) && IsHex(s[4]) then Some(s[5..])
    else None
  }

  function AfterItems(s: string): (rest: Option<string>)
    ensures rest.Some? ==> |rest.value| < |s|
    decreases |s|
  {
    if s == "" then None
    else if s[0] == '"' then Some(s[1..])
    else if s[0] == '\\' then
      var rest := AfterEscape(s[1..]);
      if rest.None? then None else AfterItems(rest.value)
    else if s[0] < ' ' then None
    else AfterItems(s[1..])
  }

  function AfterString(s: string): (rest: Option<string>)
    ensures rest.Some? ==> |rest.value| < |s|
  {
    if s == "" || s[0] != '"' then None else AfterItems(s[1..])
  }

  function AfterNumber(s: string): (rest: Option<string>)
    ensures rest.Some? ==> |rest.value| < |s|
  {
    var digits := if s != "" && s[0] == '-' then s[1..] else s;
    var rest := AfterDigits(digits);
    if rest == digits then None
    else if rest == "" || rest[0] != '.' then Some(rest)
    else
      var rest' := AfterDigits(rest[1..]);
      if rest' == rest[1..] then None else Some(rest')
  }

  function AfterValue(s: string): (rest: Option<string>)
    ensures rest.Some? ==> |rest.value| < |s|
  {
    if s == "" then None
    else if s[0] == '"' then AfterString(s)
    else if ParseWord(s, "true").Some? then ParseWord(s, "true")
    else if ParseWord(s, "false").Some? then ParseWord(s, "false")
    else if ParseWord(s, "null").Some? then ParseWord(s, "null")
    else AfterNumber(s)
  }

  function AfterColon(s: string): (rest: Option<string>)
    ensures rest.Some? ==> |rest.value| < |s|
  {
    var rest := AfterWs(s);
    if rest == "" || rest[0] != ':' then None else Some(rest[1..])
  }

  function AfterField(s: string): (rest: Option<string>)
    ensures rest.Some? ==> |rest.value| < |s|
  {
    var value := AfterValue(AfterWs(s));
    if value.None? then None else Some(AfterWs(value.value))
  }

  /** A key, a colon, a value and the white space after it. */
  function AfterMember(s: string): (rest: Option<string>)
    ensures rest.Some? ==> |rest.value| < |s|
  {
    var key := AfterString(s);
    if key.None? then None
    else
      var colon := AfterColon(key.value);
      if colon.None? then None
      else
        AfterField(colon.value)
  }

  /** What follows a member: another one, the end of the object, or neither. */
  datatype Separator = Comma(rest: string) | Brace(rest: string) | Neither

  function SeparatorOf(s: string): (r: Separator)
    ensures !r.Neither? ==> |r.rest| < |s|
  {
    if s == "" then Neither
    else if s[0] == ',' then Comma(AfterWs(s[1..]))
    else if s[0] == '}' then Brace(s[1..])
    else Neither
  }

  function AfterMembers(s: string): (rest: Option<string>)
    ensures rest.Some? ==> |rest.value| < |s|
    decreases |s|
  {
    var member := AfterMember(s);
    if member.None? then None
    else
      match SeparatorOf(member.value)
      case Comma(rest) => AfterMembers(rest)
      case Brace(rest) => Some(rest)
      case Neither => None
  }

  predicate IsObjectText(s: string) {
    var open := AfterWs(s);
    && open != "" && open[0] == '{'
    && var body := AfterWs(open[1..]);
       if body != "" && body[0] == '}' then AfterWs(body[1..]) == ""
       else
         var rest := AfterMembers(body);
         rest.Some? && AfterWs(rest.value) == ""
  }

  predicate Accepted(payload: string) { 2 <= |payload| <= MAX_PAYLOAD && IsObjectText(payload) }

  // ---- It is the parser without the trees ----

  function Tail<T>(parsed: Option<(T, string)>): Option<string> {
    if parsed.None? then None else Some(parsed.value.1)
  }

  lemma {:induction false} WsRest(s: string)
    ensures AfterWs(s) == TakeWs(s).1
    decreases |s|
  {
    if s != "" && IsWs(s[0]) { WsRest(s[1..]); }
  }

  lemma {:induction false} DigitsRest(s: string)
    ensures AfterDigits(s) == TakeDigits(s).1
    ensures AfterDigits(s) == s <==> TakeDigits(s).0 == ""
    decreases |s|
  {
    if s != "" && IsDigit(s[0]) {
      DigitsRest(s[1..]);
      assert |TakeDigits(s).0| > 0 && |AfterDigits(s)| < |s|;
    }
  }

  lemma EscapeRest(s: string)
    ensures AfterEscape(s) == Tail(ParseEscape(s))
  {
  }

  lemma {:induction false} ItemsRest(s: string)
    ensures AfterItems(s) == Tail(ParseItems(s))
    decreases |s|
  {
    if s != "" && s[0] != '"' {
      EscapeRest(s[1..]);
      var item := ParseItem(s);
      if item.Some? { ItemsRest(item.value.1); }
    }
  }

  lemma StringRest(s: string)
    ensures AfterString(s) == Tail(ParseString(s))
  {
    if s != "" { ItemsRest(s[1..]); }
  }

  lemma NumberRest(s: string)
    ensures AfterNumber(s) == Tail(ParseNumber(s))
  {
    var digits := if s != "" && s[0] == '-' then s[1..] else s;
    DigitsRest(digits);
    var rest := AfterDigits(digits);
    if rest != "" { DigitsRest(rest[1..]); }
  }

  lemma ValueRest(s: string)
    ensures AfterValue(s) == Tail(ParseValue(s))
  {
    StringRest(s);
    NumberRest(s);
  }

  lemma ColonRest(s: string)
    ensures AfterColon(s) == Tail(ParseColon(s))
  {
    WsRest(s);
  }

  lemma FieldRest(s: string)
    ensures AfterField(s) == Tail(ParseField(s))
  {
    WsRest(s);
    ValueRest(AfterWs(s));
    var value := AfterValue(AfterWs(s));
    if value.Some? { WsRest(value.value); }
  }

  lemma MemberRest(s: string)
    ensures AfterMember(AfterWs(s)) == Tail(ParseMember(s))
  {
    WsRest(s);
    StringRest(AfterWs(s));
    var key := AfterString(AfterWs(s));
    if key.Some? {
      ColonRest(key.value);
      var colon := AfterColon(key.value);
      if colon.Some? { FieldRest(colon.value); }
    }
  }

  lemma {:induction false} MembersRest(s: string)
    ensures AfterMembers(AfterWs(s)) == Tail(ParseMembers(s))
    decreases |s|
  {
    MemberRest(s);
    var member := AfterMember(AfterWs(s));
    if member.Some? && SeparatorOf(member.value).Comma? { MembersRest(member.value[1..]); }
  }

  lemma BodyRest(s: string)
    ensures var body := AfterWs(s);
            (if body != "" && body[0] == '}' then Some(body[1..]) else AfterMembers(body))
            == if ParseBody(s).None? then None else Some(ParseBody(s).value.2)
  {
    WsRest(s);
    MembersRest(s);
  }

  lemma IsObjectTextExactly(s: string)
    ensures IsObjectText(s) <==> ParseObject(s).Some?
  {
    WsRest(s);
    var open := AfterWs(s);
    if open != "" {
      BodyRest(open[1..]);
      var body := ParseBody(open[1..]);
      if body.Some? { WsRest(body.value.2); }
    }
  }

  /** Accepted means: 2 to 256 characters, and the text of an object of the grammar. */
  lemma AcceptedExactly(s: string)
    ensures Accepted(s) <==> 2 <= |s| <= 256 && exists o :: ObjectOk(o) && Render(o) == s
  {
    IsObjectTextExactly(s);
    AcceptsExactlyTheGrammar(s);
  }

  // ---- The methods, as the firmware runs them ----

  /** What a step reports: whether it read something, and where the rest of the text starts. */
  ghost predicate Reads(value: string, index: nat, ok: bool, next: nat, rest: Option<string>) {
    && index <= next <= |value|
    && ok == rest.Some?
    && (ok ==> value[next..] == rest.value)
  }

  method SkipWs(value: string, index: nat) returns (next: nat)
    requires index <= |value|
    ensures index <= next <= |value| && value[next..] == AfterWs(value[index..])
  {
    next := index;
    while next < |value| && IsWs(value[next])
      invariant index <= next <= |value|
      invariant AfterWs(value[next..]) == AfterWs(value[index..])
    {
      assert value[next..][1..] == value[next + 1..];
      next := next + 1;
    }
  }

  method ParseEscapeAt(value: string, index: nat) returns (ok: bool, next: nat)
    requires index <= |value|
    ensures Reads(value, index, ok, next, AfterEscape(value[index..]))
  {
    next := index;
    if next >= |value| { return false, next; }
    if IsShortEscape(value[next]) { return true, next + 1; }
    if value[next] != 'u' { return false, next; }
    next := next + 1;
    ghost var s := value[index..];
    for digit := 0 to 4
      invariant next == index + 1 + digit <= |value|
      invariant forall k :: 1 <= k <= digit ==> IsHex(s[k])
    {
      if next >= |value| || !IsHex(value[next]) {
        assert |s| >= 2 + digit ==> !IsHex(s[1 + digit]);
        return false, next;
      }
      assert s[1 + digit] == value[next];
      next := next + 1;
    }
    assert IsHex(s[1]) && IsHex(s[2]) && IsHex(s[3]) && IsHex(s[4]);
    return true, next;
  }

  method ParseStringAt(value: string, index: nat) returns (ok: bool, next: nat)
    requires index <= |value|
    ensures Reads(value, index, ok, next, AfterString(value[index..]))
  {
    next := index;
    if next >= |value| || value[next] != '"' { return false, next; }
    next := next + 1;
    assert value[index..][1..] == value[next..];
    while next < |value|
      invariant index < next <= |value|
      invariant AfterString(value[index..]) == AfterItems(value[next..])
    {
      ghost var s := value[next..];
      assert s[1..] == value[next + 1..];
      if value[next] == '"' { return true, next + 1; }
      if value[next] == '\\' {
        next := next + 1;
        ok, next := ParseEscapeAt(value, next);
        if !ok { return false, next; }
        continue;
      } else if value[next] < ' ' {
        return false, next;
      }
      next := next + 1;
    }
    return false, next;
  }

  method ParseLiteralAt(value: string, index: nat, literal: string) returns (ok: bool, next: nat)
    requires index <= |value|
    ensures Reads(value, index, ok, next, ParseWord(value[index..], literal))
    ensures !ok ==> next == index
  {
    next := index;
    if index + |literal| > |value| { return false, next; }
    ghost var s := value[index..];
    for k := 0 to |literal|
      invariant literal[..k] == s[..k]
    {
      if value[index + k] != literal[k] {
        assert s[k] != literal[k];
        return false, next;
      }
    }
    assert literal <= s;
    return true, index + |literal|;
  }

  method SkipDigits(value: string, index: nat) returns (next: nat)
    requires index <= |value|
    ensures index <= next <= |value| && value[next..] == AfterDigits(value[index..])
  {
    next := index;
    while next < |value| && IsDigit(value[next])
      invariant index <= next <= |value|
      invariant AfterDigits(value[next..]) == AfterDigits(value[index..])
    {
      assert value[next..][1..] == value[next + 1..];
      next := next + 1;
    }
  }

  method ParseNumberAt(value: string, index: nat) returns (ok: bool, next: nat)
    requires index <= |value|
    ensures Reads(value, index, ok, next, AfterNumber(value[index..]))
  {
    next := index;
    if next < |value| && value[next] == '-' { next := next + 1; }
    assert value[next..] == if value[index..] != "" && value[index..][0] == '-' then value[index..][1..]
           else value[index..];
    var digitsFrom := next;
    next := SkipDigits(value, digitsFrom);
    assert next != digitsFrom ==> |value[next..]| != |value[digitsFrom..]|;
    if next == digitsFrom { return false, index; }
    if next < |value| && value[next] == '.' {
      assert value[next..][1..] == value[next + 1..];
      var fractionFrom := next + 1;
      next := SkipDigits(value, fractionFrom);
      assert next != fractionFrom ==> |value[next..]| != |value[fractionFrom..]|;
      if next == fractionFrom { return false, index; }
    }
    return true, next;
  }

  method ParseValueAt(value: string, index: nat) returns (ok: bool, next: nat)
    requires index <= |value|
    ensures Reads(value, index, ok, next, AfterValue(AfterWs(value[index..])))
  {
    next := SkipWs(value, index);
    if next >= |value| { return false, next; }
    if value[next] == '"' {
      ok, next := ParseStringAt(value, next);
      return;
    }
    ok, next := ParseLiteralAt(value, next, "true");
    if ok { return; }
    ok, next := ParseLiteralAt(value, next, "false");
    if ok { return; }
    ok, next := ParseLiteralAt(value, next, "null");
    if ok { return; }
    ok, next := ParseNumberAt(value, next);
  }

  method ParseMemberAt(value: string, index: nat) returns (ok: bool, next: nat)
    requires index <= |value|
    ensures Reads(value, index, ok, next, AfterMember(value[index..]))
  {
    ok, next := ParseStringAt(value, index);
    if !ok { return; }
    next := SkipWs(value, next);
    if next >= |value| || value[next] != ':' { return false, next; }
    assert value[next..][1..] == value[next + 1..];
    ok, next := ParseValueAt(value, next + 1);
    if !ok { return; }
    next := SkipWs(value, next);
  }

  method ParseSeparatorAt(value: string, index: nat) returns (more: bool, ok: bool, next: nat)
    requires index <= |value|
    ensures index <= next <= |value|
    ensures match SeparatorOf(value[index..])
            case Comma(rest) => more && value[next..] == rest
            case Brace(rest) => !more && ok && value[next..] == rest
            case Neither => !more && !ok
  {
    next := index;
    if next < |value| { assert value[next..][1..] == value[next + 1..]; }
    if next < |value| && value[next] == ',' {
      next := SkipWs(value, next + 1);
      return true, true, next;
    }
    if next < |value| && value[next] == '}' { return false, true, next + 1; }
    return false, false, next;
  }

  method ParseMembersAt(value: string, index: nat) returns (ok: bool, next: nat)
    requires index <= |value|
    ensures Reads(value, index, ok, next, AfterMembers(value[index..]))
  {
    ok, next := false, index;
    var more := true;
    while more && next < |value|
      invariant more ==> index <= next <= |value| && AfterMembers(value[index..]) == AfterMembers(value[next..])
      invariant !more ==> Reads(value, index, ok, next, AfterMembers(value[index..]))
      decreases more, |value| - next
    {
      ghost var s := value[next..];
      ok, next := ParseMemberAt(value, next);
      if !ok { return; }
      assert |value[next..]| < |s|;
      more, ok, next := ParseSeparatorAt(value, next);
    }
    if more { ok := false; }
  }

  method IsObject(value: string) returns (ok: bool)
    ensures ok == Accepted(value)
  {
    if |value| < 2 || |value| > MAX_PAYLOAD { return false; }
    assert value[0..] == value;
    var index := SkipWs(value, 0);
    if index >= |value| || value[index] != '{' { return false; }
    assert value[index..][1..] == value[index + 1..];
    index := SkipWs(value, index + 1);
    if index < |value| && value[index] == '}' {
      assert value[index..][1..] == value[index + 1..];
      index := SkipWs(value, index + 1);
      return index == |value|;
    }
    ok, index := ParseMembersAt(value, index);
    if !ok { return; }
    index := SkipWs(value, index);
    ok := index == |value|;
  }

  /** A missing payload is accepted; any other exactly when it is a flat object of 2 to 256 characters. */
  method IsBoundedObject(payload: Option<string>) returns (ok: bool)
    ensures payload.None? ==> ok
    ensures payload.Some? ==>
      (ok <==> 2 <= |payload.value| <= 256 && exists o :: ObjectOk(o) && Render(o) == payload.value)
  {
    if payload.None? { return true; }
    AcceptedExactly(payload.value);
    ok := IsObject(payload.value);
  }
}
