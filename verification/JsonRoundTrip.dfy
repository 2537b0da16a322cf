/**
 The parser reads back every tree of the grammar, so it accepts exactly the grammar, and the grammar is
 unambiguous.
 */
module JsonRoundTrip {
  import opened Options
  import opened Json

  lemma {:induction false} TakeWsOf(ws: string, rest: string)
    requires AllWs(ws) && (rest == "" || !IsWs(rest[0]))
    ensures TakeWs(ws + rest) == (ws, rest)
    decreases |ws|
  {
    if ws == "" {
      assert ws + rest == rest;
    } else {
      assert (ws + rest)[1..] == ws[1..] + rest;
      TakeWsOf(ws[1..], rest);
      assert ws == [ws[0]] + ws[1..];
    }
  }

  lemma {:induction false} TakeDigitsOf(digits: string, rest: string)
    requires AllDigits(digits) && (rest == "" || !IsDigit(rest[0]))
    ensures TakeDigits(digits + rest) == (digits, rest)
    decreases |digits|
  {
    if digits == "" {
      assert digits + rest == rest;
    } else {
      assert (digits + rest)[1..] == digits[1..] + rest;
      TakeDigitsOf(digits[1..], rest);
      assert digits == [digits[0]] + digits[1..];
    }
  }

  lemma ParseItemOf(item: Item, rest: string)
    requires ItemOk(item)
    ensures ParseItem(PutItem(item, rest)) == Some((item, rest))
    ensures PutItem(item, rest)[0] != '"'
  {
  }

  lemma {:induction false} ParseItemsOf(items: seq<Item>, rest: string)
    requires ItemsOk(items)
    ensures ParseItems(PutItems(items, ['"'] + rest)) == Some((items, rest))
    decreases |items|
  {
    if items != [] {
      ParseItemsOf(items[1..], rest);
      ParseItemOf(items[0], PutItems(items[1..], ['"'] + rest));
      assert items == [items[0]] + items[1..];
    }
  }

  lemma ParseStringOf(items: seq<Item>, rest: string)
    requires ItemsOk(items)
    ensures ParseString(PutString(items, rest)) == Some((items, rest))
  {
    ParseItemsOf(items, rest);
  }

  predicate Closes(rest: string) { rest != "" && (rest[0] == ',' || rest[0] == '}') }

  /** What may follow a value. */
  predicate Stops(rest: string) { rest != "" && (IsWs(rest[0]) || rest[0] == ',' || rest[0] == '}') }

  lemma ParseFractionOf(fraction: string, rest: string)
    requires AllDigits(fraction) && Stops(rest)
    ensures ParseFraction(PutFraction(fraction, rest)) == Some((fraction, rest))
    ensures PutFraction(fraction, rest) != "" && !IsDigit(PutFraction(fraction, rest)[0])
  {
    TakeDigitsOf(fraction, rest);
  }

  lemma ParseNumberOf(v: Value, rest: string)
    requires v.Number? && ValueOk(v) && Stops(rest)
    ensures ParseNumber(PutValue(v, rest)) == Some((v, rest))
  {
    ParseFractionOf(v.fraction, rest);
    TakeDigitsOf(v.whole, PutFraction(v.fraction, rest));
  }

  lemma ParseValueOf(v: Value, rest: string)
    requires ValueOk(v) && Stops(rest)
    ensures ParseValue(PutValue(v, rest)) == Some((v, rest))
    ensures !IsWs(PutValue(v, rest)[0])
  {
    match v
    case Text(items) => ParseStringOf(items, rest);
    case Word(word) => assert word <= word + rest && (word + rest)[|word|..] == rest;
    case Number(_, _, _) => ParseNumberOf(v, rest);
  }

  lemma ParseFieldOf(before: string, v: Value, after: string, rest: string)
    requires AllWs(before) && ValueOk(v) && AllWs(after) && Closes(rest)
    ensures ParseField(before + PutValue(v, after + rest)) == Some((Field(before, v, after), rest))
  {
    ParseValueOf(v, after + rest);
    TakeWsOf(before, PutValue(v, after + rest));
    TakeWsOf(after, rest);
  }

  lemma ParseColonOf(ws: string, rest: string)
    requires AllWs(ws)
    ensures ParseColon(ws + ([':'] + rest)) == Some((ws, rest))
  {
    TakeWsOf(ws, [':'] + rest);
  }

  lemma ParseMemberOf(m: Member, rest: string)
    requires MemberOk(m) && Closes(rest)
    ensures ParseMember(PutMember(m, rest)) == Some((m, rest))
  {
    var field := m.beforeValue + PutValue(m.value, m.after + rest);
    ParseFieldOf(m.beforeValue, m.value, m.after, rest);
    ParseColonOf(m.beforeColon, field);
    ParseStringOf(m.key, m.beforeColon + ([':'] + field));
    TakeWsOf(m.gap, PutString(m.key, m.beforeColon + ([':'] + field)));
  }

  lemma LastMemberOf(m: Member, rest: string)
    requires MemberOk(m)
    ensures ParseMembers(PutMember(m, ['}'] + rest)) == Some(([m], rest))
  {
    ParseMemberOf(m, ['}'] + rest);
  }

  lemma NextMemberOf(m: Member, text: string, ms: seq<Member>, rest: string)
    requires MemberOk(m) && ParseMembers(text) == Some((ms, rest))
    ensures ParseMembers(PutMember(m, [','] + text)) == Some(([m] + ms, rest))
  {
    ParseMemberOf(m, [','] + text);
    assert ([','] + text)[1..] == text;
  }

  lemma {:induction false} ParseMembersOf(ms: seq<Member>, rest: string)
    requires MembersOk(ms) && ms != []
    ensures ParseMembers(PutMembers(ms, ['}'] + rest)) == Some((ms, rest))
    decreases |ms|
  {
    assert MemberOk(ms[0]);
    if |ms| == 1 {
      LastMemberOf(ms[0], rest);
      assert ms == [ms[0]];
    } else {
      ParseMembersOf(ms[1..], rest);
      NextMemberOf(ms[0], PutMembers(ms[1..], ['}'] + rest), ms[1..], rest);
      assert ms == [ms[0]] + ms[1..];
    }
  }

  lemma MemberStartsQuoted(m: Member, rest: string)
    requires MemberOk(m)
    ensures TakeWs(PutMember(m, rest)).1 != "" && TakeWs(PutMember(m, rest)).1[0] == '"'
  {
    TakeWsOf(m.gap, PutString(m.key, m.beforeColon + ([':'] + (m.beforeValue + PutValue(m.value, m.after + rest)))));
  }

  lemma MembersStartQuoted(ms: seq<Member>, rest: string)
    requires MembersOk(ms) && ms != []
    ensures TakeWs(PutMembers(ms, rest)).1 != "" && TakeWs(PutMembers(ms, rest)).1[0] == '"'
  {
    assert MemberOk(ms[0]);
    MemberStartsQuoted(ms[0], if |ms| == 1 then rest else [','] + PutMembers(ms[1..], rest));
  }

  lemma ParseBodyOf(inner: string, ms: seq<Member>, rest: string)
    requires AllWs(inner) && MembersOk(ms) && (ms != [] ==> inner == "")
    ensures ParseBody(inner + PutMembers(ms, ['}'] + rest)) == Some((inner, ms, rest))
  {
    if ms == [] {
      TakeWsOf(inner, ['}'] + rest);
    } else {
      assert inner + PutMembers(ms, ['}'] + rest) == PutMembers(ms, ['}'] + rest);
      MembersStartQuoted(ms, ['}'] + rest);
      ParseMembersOf(ms, rest);
    }
  }

  /** Every object of the grammar is read back from its text. */
  lemma RoundTrip(o: Object)
    requires ObjectOk(o)
    ensures ParseObject(Render(o)) == Some(o)
  {
    var body := o.inner + PutMembers(o.members, ['}'] + o.trail);
    TakeWsOf(o.lead, ['{'] + body);
    ParseBodyOf(o.inner, o.members, o.trail);
    TakeWsOf(o.trail, "");
    assert o.trail + "" == o.trail;
  }

  /** The parser accepts exactly the texts of the grammar. */
  lemma AcceptsExactlyTheGrammar(s: string)
    ensures ParseObject(s).Some? <==> exists o :: ObjectOk(o) && Render(o) == s
  {
    if o :| ObjectOk(o) && Render(o) == s { RoundTrip(o); }
  }

  /** No text has two readings. */
  lemma Unambiguous(o: Object, p: Object)
    requires ObjectOk(o) && ObjectOk(p) && Render(o) == Render(p)
    ensures o == p
  {
    RoundTrip(o);
    RoundTrip(p);
  }
}
