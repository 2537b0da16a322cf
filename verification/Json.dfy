/**
 Flat JSON objects as the firmware's recogniser understands them (sections 4, 6 and 7 of RFC 8259,
 without nesting or exponents, leading zeros allowed): the grammar as trees that render to text,
 and a parser that returns the tree.
 */
module Json {
  import opened Options

  const MAX_PAYLOAD := 256

  // ---- The grammar ----

  predicate IsWs(c: char) { c == ' ' || c == '\n' || c == '\r' || c == '\t' }
  predicate IsDigit(c: char) { '0' <= c <= '9' }
  predicate IsHex(c: char) { IsDigit(c) || 'a' <= c <= 'f' || 'A' <= c <= 'F' }
  predicate IsShortEscape(c: char) {
    c == '"' || c == '\\' || c == '/' || c == 'b' || c == 'f' || c == 'n' || c == 'r' || c == 't'
  }

  /** White space, digits and short escapes as sections 2, 6 and 7 of RFC 8259 list them. */
  lemma CharacterClasses(c: char)
    ensures IsWs(c) <==> c as int in {0x20, 0x09, 0x0A, 0x0D}
    ensures IsDigit(c) <==> c in "0123456789"
    ensures IsHex(c) <==> c in "0123456789abcdefABCDEF"
    ensures IsShortEscape(c) <==> c as int in {0x22, 0x5C, 0x2F, 0x62, 0x66, 0x6E, 0x72, 0x74}
  {
  }

  ghost predicate AllWs(s: string) { forall i :: 0 <= i < |s| ==> IsWs(s[i]) }
  ghost predicate AllDigits(s: string) { forall i :: 0 <= i < |s| ==> IsDigit(s[i]) }

  /** One character of a string: itself, a short escape, or four hexadecimal digits. */
  datatype Item = Plain(c: char) | Escape(c: char) | Unicode(h0: char, h1: char, h2: char, h3: char)

  datatype Value = Text(items: seq<Item>) | Word(word: string) | Number(minus: bool, whole: string, fraction: string)

  datatype Member = Member(gap: string, key: seq<Item>, beforeColon: string, beforeValue: string, value: Value,
                           after: string)

  datatype Object = Object(lead: string, inner: string, members: seq<Member>, trail: string)

  ghost predicate ItemOk(item: Item) {
    match item
    case Plain(c) => c != '"' && c != '\\' && c >= ' '
    case Escape(c) => IsShortEscape(c)
    case Unicode(h0, h1, h2, h3) => IsHex(h0) && IsHex(h1) && IsHex(h2) && IsHex(h3)
  }

  ghost predicate ItemsOk(items: seq<Item>) { forall i :: 0 <= i < |items| ==> ItemOk(items[i]) }

  ghost predicate ValueOk(v: Value) {
    match v
    case Text(items) => ItemsOk(items)
    case Word(word) => word == "true" || word == "false" || word == "null"
    case Number(_, whole, fraction) => whole != "" && AllDigits(whole) && AllDigits(fraction)
  }

  ghost predicate MemberOk(m: Member) {
    AllWs(m.gap) && ItemsOk(m.key) && AllWs(m.beforeColon) && AllWs(m.beforeValue) && ValueOk(m.value) && AllWs(m.after)
  }

  ghost predicate MembersOk(ms: seq<Member>) { forall i :: 0 <= i < |ms| ==> MemberOk(ms[i]) }

  /** `inner` is the white space of an empty object. */
  ghost predicate ObjectOk(o: Object) {
    AllWs(o.lead) && AllWs(o.inner) && AllWs(o.trail) && MembersOk(o.members) && (o.members != [] ==> o.inner == "")
  }

  // Each `Put` writes a tree in front of the text that follows it.

  function PutItem(item: Item, rest: string): (r: string)
    ensures |r| > |rest|
  {
    match item
    case Plain(c) => [c] + rest
    case Escape(c) => ['\\'] + ([c] + rest)
    case Unicode(h0, h1, h2, h3) => ['\\'] + (['u', h0, h1, h2, h3] + rest)
  }

  function PutItems(items: seq<Item>, rest: string): (r: string)
    ensures |r| >= |rest|
    decreases |items|
  {
    if items == [] then rest else PutItem(items[0], PutItems(items[1..], rest))
  }

  function PutString(items: seq<Item>, rest: string): string { ['"'] + PutItems(items, ['"'] + rest) }

  /** A number without a fraction has no point. */
  function PutFraction(fraction: string, rest: string): (r: string)
    ensures |r| >= |rest|
  {
    if fraction == "" then rest else ['.'] + (fraction + rest)
  }

  function PutValue(v: Value, rest: string): (r: string)
    ensures |r| >= |rest|
  {
    match v
    case Text(items) => PutString(items, rest)
    case Word(word) => word + rest
    case Number(minus, whole, fraction) =>
      if minus then ['-'] + (whole + PutFraction(fraction, rest)) else whole + PutFraction(fraction, rest)
  }

  function PutMember(m: Member, rest: string): (r: string)
    ensures |r| > |rest|
  {
    m.gap + PutString(m.key, m.beforeColon + ([':'] + (m.beforeValue + PutValue(m.value, m.after + rest))))
  }

  function PutMembers(ms: seq<Member>, rest: string): string
    decreases |ms|
  {
    if ms == [] then rest else PutMember(ms[0], if |ms| == 1 then rest else [','] + PutMembers(ms[1..], rest))
  }

  function Render(o: Object): string { o.lead + (['{'] + (o.inner + PutMembers(o.members, ['}'] + o.trail))) }

  // ---- The parser: each function returns what it read and the rest ----

  function TakeWs(s: string): (r: (string, string))
    ensures s == r.0 + r.1 && AllWs(r.0) && (r.1 == "" || !IsWs(r.1[0]))
  {
    if s == "" || !IsWs(s[0]) then ("", s)
    else
      var (ws, rest) := TakeWs(s[1..]);
      ([s[0]] + ws, rest)
  }

  function TakeDigits(s: string): (r: (string, string))
    ensures s == r.0 + r.1 && AllDigits(r.0) && (r.1 == "" || !IsDigit(r.1[0]))
  {
    if s == "" || !IsDigit(s[0]) then ("", s)
    else
      var (digits, rest) := TakeDigits(s[1..]);
      ([s[0]] + digits, rest)
  }

  /** After a backslash. */
  function ParseEscape(s: string): (r: Option<(Item, string)>)
    ensures r.Some? ==> ItemOk(r.value.0) && !r.value.0.Plain? && ['\\'] + s == PutItem(r.value.0, r.value.1)
  {
    if s == "" then None
    else if IsShortEscape(s[0]) then Some((Escape(s[0]), s[1..]))
    else if s[0] != 'u' then None
    else if |s| >= 5 && IsHex(s[1]) && IsHex(s[2]) && IsHex(s[3]) && IsHex(s[4]) then
      Some((Unicode(s[1], s[2], s[3], s[4]), s[5..]))
    else None
  }

  function ParseItem(s: string): (r: Option<(Item, string)>)
    ensures r.Some? ==> ItemOk(r.value.0) && s == PutItem(r.value.0, r.value.1) && s[0] != '"'
  {
    if s == "" || s[0] == '"' then None
    else if s[0] == '\\' then ParseEscape(s[1..])
    else if s[0] < ' ' then None
    else Some((Plain(s[0]), s[1..]))
  }

  /** Up to and including the closing quote. */
  function ParseItems(s: string): (r: Option<(seq<Item>, string)>)
    ensures r.Some? ==> ItemsOk(r.value.0) && s == PutItems(r.value.0, ['"'] + r.value.1)
    decreases |s|
  {
    if s == "" then None
    else if s[0] == '"' then Some(([], s[1..]))
    else
      var item := ParseItem(s);
      if item.None? then None
      else
        var rest := ParseItems(item.value.1);
        if rest.None? then None else Some(([item.value.0] + rest.value.0, rest.value.1))
  }

  function ParseString(s: string): (r: Option<(seq<Item>, string)>)
    ensures r.Some? ==> ItemsOk(r.value.0) && s == PutString(r.value.0, r.value.1)
  {
    if s == "" || s[0] != '"' then None else ParseItems(s[1..])
  }

  function ParseWord(s: string, word: string): (r: Option<string>)
    ensures r.Some? ==> s == word + r.value
  {
    if word <= s then Some(s[|word|..]) else None
  }

  function ParseFraction(s: string): (r: Option<(string, string)>)
    ensures r.Some? ==> AllDigits(r.value.0) && s == PutFraction(r.value.0, r.value.1)
  {
    if s == "" || s[0] != '.' then Some(("", s))
    else
      var (fraction, rest) := TakeDigits(s[1..]);
      if fraction == "" then None else Some((fraction, rest))
  }

  function ParseNumber(s: string): (r: Option<(Value, string)>)
    ensures r.Some? ==> r.value.0.Number? && ValueOk(r.value.0) && s == PutValue(r.value.0, r.value.1)
  {
    var minus := s != "" && s[0] == '-';
    var (whole, rest) := TakeDigits(if minus then s[1..] else s);
    var fraction := ParseFraction(rest);
    if whole == "" || fraction.None? then None
    else Some((Number(minus, whole, fraction.value.0), fraction.value.1))
  }

  function ParseValue(s: string): (r: Option<(Value, string)>)
    ensures r.Some? ==> ValueOk(r.value.0) && s == PutValue(r.value.0, r.value.1)
  {
    if s == "" then None
    else if s[0] == '"' then
      var text := ParseString(s);
      if text.None? then None else Some((Text(text.value.0), text.value.1))
    else if ParseWord(s, "true").Some? then Some((Word("true"), ParseWord(s, "true").value))
    else if ParseWord(s, "false").Some? then Some((Word("false"), ParseWord(s, "false").value))
    else if ParseWord(s, "null").Some? then Some((Word("null"), ParseWord(s, "null").value))
    else ParseNumber(s)
  }

  function ParseColon(s: string): (r: Option<(string, string)>)
    ensures r.Some? ==> AllWs(r.value.0) && s == r.value.0 + ([':'] + r.value.1)
  {
    var (ws, rest) := TakeWs(s);
    if rest == "" || rest[0] != ':' then None else Some((ws, rest[1..]))
  }

  datatype Field = Field(before: string, value: Value, after: string)

  /** A value between white space. */
  function ParseField(s: string): (r: Option<(Field, string)>)
    ensures r.Some? ==>
      var f := r.value.0;
      AllWs(f.before) && ValueOk(f.value) && AllWs(f.after) && s == f.before + PutValue(f.value, f.after + r.value.1)
  {
    var (before, s1) := TakeWs(s);
    var value := ParseValue(s1);
    if value.None? then None
    else
      var (after, s2) := TakeWs(value.value.1);
      Some((Field(before, value.value.0, after), s2))
  }

  function ParseMember(s: string): (r: Option<(Member, string)>)
    ensures r.Some? ==> MemberOk(r.value.0) && s == PutMember(r.value.0, r.value.1)
  {
    var (gap, s0) := TakeWs(s);
    var key := ParseString(s0);
    if key.None? then None
    else
      var colon := ParseColon(key.value.1);
      if colon.None? then None
      else
        var field := ParseField(colon.value.1);
        if field.None? then None
        else
          var f := field.value.0;
          Some((Member(gap, key.value.0, colon.value.0, f.before, f.value, f.after), field.value.1))
  }

  lemma PutMembersCons(m: Member, ms: seq<Member>, rest: string)
    requires MemberOk(m) && MembersOk(ms) && ms != []
    ensures MembersOk([m] + ms) && PutMembers([m] + ms, rest) == PutMember(m, [','] + PutMembers(ms, rest))
  {
    assert ([m] + ms)[1..] == ms;
  }

  lemma PutOneMember(m: Member, rest: string)
    requires MemberOk(m)
    ensures MembersOk([m]) && PutMembers([m], rest) == PutMember(m, rest)
  {
  }

  lemma Headed(s: string, c: char)
    requires s != "" && s[0] == c
    ensures s == [c] + s[1..]
  {
  }

  /** Members up to and including the closing brace. */
  function ParseMembers(s: string): (r: Option<(seq<Member>, string)>)
    ensures r.Some? ==> r.value.0 != [] && MembersOk(r.value.0) && s == PutMembers(r.value.0, ['}'] + r.value.1)
    decreases |s|
  {
    var first := ParseMember(s);
    if first.None? then None
    else
      var (m, rest) := first.value;
      if rest != "" && rest[0] == ',' then
        Headed(rest, ',');
        var more := ParseMembers(rest[1..]);
        if more.None? then None
        else
          PutMembersCons(m, more.value.0, ['}'] + more.value.1);
          Some(([m] + more.value.0, more.value.1))
      else if rest != "" && rest[0] == '}' then
        Headed(rest, '}');
        PutOneMember(m, rest);
        Some(([m], rest[1..]))
      else None
  }

  /** Nothing but white space to the end. */
  function ParseTrail(s: string): (r: Option<string>)
    ensures r.Some? ==> AllWs(r.value) && s == r.value
  {
    var (ws, rest) := TakeWs(s);
    if rest == "" then Some(ws) else None
  }

  /** After the opening brace. */
  function ParseBody(s: string): (r: Option<(string, seq<Member>, string)>)
    ensures r.Some? ==> AllWs(r.value.0) && MembersOk(r.value.1) && (r.value.1 != [] ==> r.value.0 == "")
                        && s == r.value.0 + PutMembers(r.value.1, ['}'] + r.value.2)
  {
    var (inner, s1) := TakeWs(s);
    if s1 != "" && s1[0] == '}' then Some((inner, [], s1[1..]))
    else
      var members := ParseMembers(s);
      if members.None? then None else Some(("", members.value.0, members.value.1))
  }

  function ParseObject(s: string): (r: Option<Object>)
    ensures r.Some? ==> ObjectOk(r.value) && s == Render(r.value)
  {
    var (lead, s0) := TakeWs(s);
    if s0 == "" || s0[0] != '{' then None
    else
      Headed(s0, '{');
      var body := ParseBody(s0[1..]);
      if body.None? then None
      else
        var trail := ParseTrail(body.value.2);
        if trail.None? then None else Some(Object(lead, body.value.0, body.value.1, trail.value))
  }
}
