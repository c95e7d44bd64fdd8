/** The body of the answer to a poll for events, against a reader of such bodies. */
module PollBody {
  import opened Common
  import opened Captures
  import opened Hex
  import opened Json

  function RuleText(rule: Option<string>): string {
    match rule
    case None => "null"
    case Some(r) => Quoted(r)
  }

  function EventText(e: Event): string {
    "{\"id\":" + (Decimal(e.id)
    + (",\"ts_ms\":" + (Decimal(e.tsMs)
    + (",\"data_hex\":" + (("\"" + HexText(e.data) + "\"")
    + (",\"matched_rule\":" + (RuleText(e.matchedRule) + "}")))))))
  }

  /** Each further event stands behind a comma. */
  function Further(events: seq<Event>): string {
    if events == [] then [] else "," + EventText(events[0]) + Further(events[1..])
  }

  function Joined(events: seq<Event>): string {
    if events == [] then [] else EventText(events[0]) + Further(events[1..])
  }

  function Body(events: seq<Event>): string {
    "[" + Joined(events) + "]"
  }

  lemma {:induction false} FurtherSnoc(events: seq<Event>, e: Event)
    ensures Further(events + [e]) == Further(events) + ("," + EventText(e))
  {
    hide EventText;
    if events == [] {
      assert Further([e]) == "," + EventText(e) + Further([]);
    } else {
      assert (events + [e])[1..] == events[1..] + [e];
      FurtherSnoc(events[1..], e);
    }
  }

  lemma JoinedSnoc(events: seq<Event>, e: Event)
    ensures Joined(events + [e]) == Joined(events) + (if events == [] then [] else ",") + EventText(e)
  {
    hide EventText;
    var first := (events + [e])[0];
    if events == [] {
      assert (events + [e])[1..] == [];
      assert Further([]) == [];
    } else {
      assert (events + [e])[1..] == events[1..] + [e];
      FurtherSnoc(events[1..], e);
      hide Further;
      Peel(EventText(first), Further(events[1..]), "," + EventText(e));
      Peel(Joined(events), ",", EventText(e));
    }
  }

  method RenderEvents(events: seq<Event>) returns (out: string)
    ensures out == Body(events)
  {
    hide EventText, Joined;
    out := "[";
    assert events[..0] == [] && out == "[" + Joined([]) by {
      NothingJoined();
    }
    for i := 0 to |events|
      invariant out == "[" + Joined(events[..i])
    {
      JoinedSnoc(events[..i], events[i]);
      assert events[..i + 1] == events[..i] + [events[i]];
      if i > 0 {
        out := out + ",";
      }
      out := out + EventText(events[i]);
    }
    out := out + "]";
    assert events[..|events|] == events;
  }

  lemma NothingJoined()
    ensures Joined([]) == []
  {
  }

  // ---- Reading ----

  /** What follows the literal, if the text starts with it. */
  function Expect(t: string, literal: string): Option<string> {
    if literal <= t then Some(t[|literal|..]) else None
  }

  /** A run of decimal digits, read behind those that denote `acc`. */
  function ReadDigits(acc: nat, t: string): (nat, string)
    decreases |t|
  {
    if t != [] && DecimalDigit(t[0]) then ReadDigits(acc * 10 + (t[0] as int - '0' as int), t[1..]) else (acc, t)
  }

  function ReadNumber(t: string): Option<(nat, string)> {
    if t != [] && DecimalDigit(t[0]) then Some(ReadDigits(0, t)) else None
  }

  function ReadData(t: string): Option<(Bytes, string)> {
    match ReadString(t)
    case None => None
    case Some((digits, rest)) => (
      match Decoded(digits)
      case Err(_) => None
      case Ok(data) => Some((data, rest)))
  }

  function ReadRule(t: string): Option<(Option<string>, string)> {
    match Expect(t, "null")
    case Some(rest) => Some((None, rest))
    case None => (
      match ReadString(t)
      case None => None
      case Some((rule, rest)) => Some((Some(rule), rest)))
  }

  /** A literal and what `read` makes of the text behind it. */
  function Field<T>(t: string, literal: string, read: string -> Option<(T, string)>): Option<(T, string)> {
    match Expect(t, literal)
    case None => None
    case Some(rest) => read(rest)
  }

  function ReadEvent(t: string): Option<(Event, string)> {
    match Field(t, "{\"id\":", ReadNumber)
    case None => None
    case Some((id, t1)) => (
      match Field(t1, ",\"ts_ms\":", ReadNumber)
      case None => None
      case Some((ts, t2)) => (
        match Field(t2, ",\"data_hex\":", ReadData)
        case None => None
        case Some((data, t3)) => (
          match Field(t3, ",\"matched_rule\":", ReadRule)
          case None => None
          case Some((rule, t4)) => (
            match Expect(t4, "}")
            case None => None
            case Some(rest) => Some((Event(id, ts, data, rule), rest))))))
  }

  /** Events behind commas up to the closing bracket. */
  function ReadFurther(t: string): Option<(seq<Event>, string)>
    decreases |t|
  {
    if t == [] then None
    else if t[0] == ']' then Some(([], t[1..]))
    else if t[0] != ',' then None
    else
      match ReadEvent(t[1..])
      case None => None
      case Some((e, rest)) =>
        if |rest| >= |t| then None
        else
          match ReadFurther(rest)
          case None => None
          case Some((more, end)) => Some(([e] + more, end))
  }

  function ReadBody(t: string): Option<(seq<Event>, string)> {
    match Expect(t, "[")
    case None => None
    case Some(inner) =>
      if inner != [] && inner[0] == ']' then Some(([], inner[1..])) else ReadFurther("," + inner)
  }

  // ---- Reading inverts rendering ----

  lemma Skips(a: string, t: string)
    ensures Expect(a + t, a) == Some(t)
  {
    assert (a + t)[|a|..] == t;
  }

  lemma OneDigit(acc: nat, k: nat, t: string)
    requires k < 10
    ensures DecimalDigit("0123456789"[k])
    ensures ReadDigits(acc, ["0123456789"[k]] + t) == ReadDigits(acc * 10 + k, t)
  {
    var d := ["0123456789"[k]];
    assert d[0] as int == '0' as int + k;
    assert (d + t)[1..] == t;
  }

  lemma {:induction false} DigitsRead(n: nat, t: string)
    ensures Decimal(n) != [] && DecimalDigit(Decimal(n)[0])
    ensures ReadDigits(0, Decimal(n) + t) == ReadDigits(n, t)
  {
    hide ReadDigits, DecimalDigit;
    if n < 10 {
      OneDigit(0, n, t);
    } else {
      var d := ["0123456789"[n % 10]];
      DigitsRead(n / 10, d + t);
      OneDigit(n / 10, n % 10, t);
      Peel(Decimal(n / 10), d, t);
    }
  }

  lemma NumberReads(n: nat, t: string)
    requires t == [] || !DecimalDigit(t[0])
    ensures ReadNumber(Decimal(n) + t) == Some((n, t))
  {
    DigitsRead(n, t);
  }

  lemma {:induction false} HexNeedsNoEscape(data: Bytes)
    ensures Escaped(HexText(data)) == HexText(data)
  {
    if data != [] {
      HexNeedsNoEscape(data[1..]);
      var high, low := HexPairReads(data[0]);
      DigitNeedsNoEscape(high);
      DigitNeedsNoEscape(low);
      hide HexPair, Halves, DigitOf, EscapeChar, Escaped;
      var more := HexText(data[1..]);
      EscapedFirst(low, more);
      EscapedFirst(high, [low] + more);
      PairFirst(high, low, more);
    } else {
      assert HexText(data) == [] && Escaped([]) == [];
    }
  }

  lemma EscapedFirst(c: char, s: string)
    requires EscapeChar(c) == [c]
    ensures Escaped([c] + s) == [c] + Escaped(s)
  {
    assert ([c] + s)[1..] == s;
  }

  lemma DigitNeedsNoEscape(c: char)
    requires DigitOf(c).Some?
    ensures EscapeChar(c) == [c]
  {
  }

  lemma DataReads(data: Bytes, t: string)
    ensures ReadData("\"" + HexText(data) + "\"" + t) == Some((data, t))
  {
    HexNeedsNoEscape(data);
    HexRoundTrip(data);
    JsonRoundTrip(HexText(data), t);
  }

  lemma RuleReads(rule: Option<string>, t: string)
    ensures ReadRule(RuleText(rule) + t) == Some((rule, t))
  {
    match rule {
      case None => Skips("null", t);
      case Some(r) => JsonRoundTrip(r, t);
    }
  }

  lemma EventReads(e: Event, t: string)
    ensures ReadEvent(EventText(e) + t) == Some((e, t))
  {
    hide Decimal, HexText, RuleText, Quoted, ReadNumber, ReadData, ReadRule, Expect, DecimalDigit;
    var t4 := "}" + t;
    Skips("}", t);
    var t3 := RuleText(e.matchedRule) + t4;
    RuleReads(e.matchedRule, t4);
    Skips(",\"matched_rule\":", t3);
    var t2 := ",\"matched_rule\":" + t3;
    var hex := "\"" + HexText(e.data) + "\"";
    DataReads(e.data, t2);
    Skips(",\"data_hex\":", hex + t2);
    var t1 := ",\"data_hex\":" + (hex + t2);
    CommaEndsNumber(t1);
    NumberReads(e.tsMs, t1);
    Skips(",\"ts_ms\":", Decimal(e.tsMs) + t1);
    var t0 := ",\"ts_ms\":" + (Decimal(e.tsMs) + t1);
    CommaEndsNumber(t0);
    NumberReads(e.id, t0);
    Skips("{\"id\":", Decimal(e.id) + t0);
    EventTextIs(e, t);
  }

  lemma CommaEndsNumber(t: string)
    requires t != [] && t[0] == ','
    ensures !DecimalDigit(t[0])
  {
  }

  lemma EventTextIs(e: Event, t: string)
    ensures EventText(e) + t ==
            "{\"id\":" + (Decimal(e.id)
            + (",\"ts_ms\":" + (Decimal(e.tsMs)
            + (",\"data_hex\":" + (("\"" + HexText(e.data) + "\"")
            + (",\"matched_rule\":" + (RuleText(e.matchedRule) + ("}" + t))))))))
  {
    hide Decimal, HexText, RuleText;
    var a8 := RuleText(e.matchedRule) + "}";
    Peel(RuleText(e.matchedRule), "}", t);
    var a7 := ",\"matched_rule\":" + a8;
    Peel(",\"matched_rule\":", a8, t);
    var hex := "\"" + HexText(e.data) + "\"";
    Peel(hex, a7, t);
    var a5 := ",\"data_hex\":" + (hex + a7);
    Peel(",\"data_hex\":", hex + a7, t);
    Peel(Decimal(e.tsMs), a5, t);
    var a3 := ",\"ts_ms\":" + (Decimal(e.tsMs) + a5);
    Peel(",\"ts_ms\":", Decimal(e.tsMs) + a5, t);
    Peel(Decimal(e.id), a3, t);
    Peel("{\"id\":", Decimal(e.id) + a3, t);
  }

  lemma FurtherOpens(events: seq<Event>, tail: string)
    requires events != []
    ensures Further(events) + tail == "," + (EventText(events[0]) + (Further(events[1..]) + tail))
  {
    hide EventText;
    var e, more := EventText(events[0]), Further(events[1..]);
    Peel("," + e, more, tail);
    Peel(",", e, more + tail);
  }

  lemma {:induction false} FurtherReads(events: seq<Event>, t: string)
    ensures ReadFurther(Further(events) + ("]" + t)) == Some((events, t))
  {
    hide EventText, ReadEvent, Further;
    var tail := "]" + t;
    if events == [] {
      NoFurther();
      assert Further(events) + tail == tail && tail[1..] == t;
    } else {
      FurtherReads(events[1..], t);
      FurtherOpens(events, tail);
      var next := EventText(events[0]) + (Further(events[1..]) + tail);
      EventReads(events[0], Further(events[1..]) + tail);
      assert ("," + next)[1..] == next;
      EventNotEmpty(events[0]);
      assert [events[0]] + events[1..] == events;
    }
  }

  lemma EventNotEmpty(e: Event)
    ensures EventText(e) != [] && EventText(e)[0] == '{'
  {
  }

  lemma NoFurther()
    ensures Further([]) == []
  {
  }

  /** The body of a poll answer carries exactly the events: a reader recovers all of them, with
      their ids, time stamps, data and labels, and stops right behind the body. */
  lemma BodyRoundTrip(events: seq<Event>, t: string)
    ensures ReadBody(Body(events) + t) == Some((events, t))
  {
    hide EventText, ReadFurther, Further, Joined;
    var inner := Joined(events) + ("]" + t);
    assert Body(events) + t == "[" + inner;
    Skips("[", inner);
    if events == [] {
      NothingJoined();
      assert inner == "]" + t && inner[1..] == t;
    } else {
      FurtherReads(events, t);
      FurtherFirst(events);
      Peel(",", Joined(events), "]" + t);
      JoinedStarts(events);
      assert inner[0] == Joined(events)[0];
    }
  }

  lemma FurtherFirst(events: seq<Event>)
    requires events != []
    ensures Further(events) == "," + Joined(events)
  {
    Peel(",", EventText(events[0]), Further(events[1..]));
  }

  lemma JoinedStarts(events: seq<Event>)
    requires events != []
    ensures Joined(events) != [] && Joined(events)[0] == '{'
  {
    EventNotEmpty(events[0]);
  }
}
