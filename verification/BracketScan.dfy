/** The bracket matcher that cuts a JSON value out of a longer text. */
module BracketScan {
  import opened Wrappers

  datatype Mode = Outside | InString | AfterBackslash

  datatype Scan = Scan(depth: int, mode: Mode)

  predicate Opening(c: char) { c == '{' || c == '[' }

  predicate Closing(c: char) { c == '}' || c == ']' }

  function Step(s: Scan, c: char): Scan {
    match s.mode
    case AfterBackslash => s.(mode := InString)
    case InString => s.(mode := if c == '\\' then AfterBackslash else if c == '"' then Outside else InString)
    case Outside =>
      if c == '"' then s.(mode := InString)
      else if Opening(c) then s.(depth := s.depth + 1)
      else if Closing(c) then s.(depth := s.depth - 1)
      else s
  }

  function ScanAll(s: Scan, text: string): Scan
    decreases |text|
  {
    if text == "" then s else ScanAll(Step(s, text[0]), text[1..])
  }

  /** The first closing bracket, outside strings, that leaves no bracket open: its
      position and the depth after it. */
  function Find(s: Scan, text: string): Option<(nat, int)>
    ensures Find(s, text).Some? ==> Find(s, text).value.0 < |text|
    decreases |text|
  {
    if text == "" then None
    else
      var next := Step(s, text[0]);
      if s.mode.Outside? && Closing(text[0]) && next.depth <= 0 then Some((0, next.depth))
      else Shift(1, Find(next, text[1..]))
  }

  function Shift(skipped: nat, found: Option<(nat, int)>): Option<(nat, int)> {
    if found.None? then None else Some((skipped + found.value.0, found.value.1))
  }

  function Balanced(text: string, start: nat): string {
    if start > |text| then ""
    else
      match Find(Scan(0, Outside), text[start..])
      case None => ""
      case Some((i, depth)) => if depth == 0 then text[start..start + i + 1] else ""
  }

  lemma FindStep(s: Scan, text: string, i: nat)
    requires i < |text|
    ensures Find(s, text[i..]) ==
            if s.mode.Outside? && Closing(text[i]) && s.depth <= 1 then Some((0, s.depth - 1))
            else Shift(1, Find(Step(s, text[i]), text[i + 1..]))
  {
    assert text[i..][1..] == text[i + 1..];
  }

  method BalancedAt(text: string, start: nat) returns (value: string)
    ensures value == Balanced(text, start)
  {
    hide Find;
    var depth, inString, escaped := 0, false, false;
    var i := start;
    ghost var now := Scan(0, Outside);
    while i < |text|
      invariant start <= i && (start <= |text| ==> i <= |text|)
      invariant escaped ==> inString
      invariant now == Scan(depth, if escaped then AfterBackslash else if inString then InString else Outside)
      invariant start <= |text| ==>
                  Find(Scan(0, Outside), text[start..]) == Shift(i - start, Find(now, text[i..]))
    {
      var ch := text[i];
      FindStep(now, text, i);
      now := Step(now, ch);
      if inString {
        if escaped {
          escaped := false;
        } else if ch == '\\' {
          escaped := true;
        } else if ch == '"' {
          inString := false;
        }
      } else if ch == '"' {
        inString := true;
      } else if Opening(ch) {
        depth := depth + 1;
      } else if Closing(ch) {
        depth := depth - 1;
        if depth == 0 {
          return text[start..i + 1];
        }
        if depth < 0 {
          return "";
        }
      }
      i := i + 1;
    }
    FindNothing(now);
    assert start <= |text| ==> text[i..] == "";
    return "";
  }

  lemma FindNothing(s: Scan)
    ensures Find(s, "") == None
  {
  }

  /** At a closing bracket, or past the end, there is nothing to cut. */
  lemma NothingToCut(text: string, start: nat)
    requires start < |text| ==> text[start] == '}' || text[start] == ']'
    ensures Balanced(text, start) == ""
  {
    FindNothing(Scan(0, Outside));
    if start < |text| {
      FindStep(Scan(0, Outside), text, start);
    } else if start == |text| {
      assert text[start..] == "";
    }
  }

  // ---------------------------------------------------- where the result ends

  function DepthAfter(text: string, start: nat, i: nat): int
    requires start <= i <= |text|
  {
    ScanAll(Scan(0, Outside), text[start..i]).depth
  }

  lemma {:induction false} FindIsFirst(s: Scan, text: string)
    requires s.depth >= 1
    ensures match Find(s, text)
            case None => forall j :: 0 <= j <= |text| ==> ScanAll(s, text[..j]).depth >= 1
            case Some((i, depth)) =>
              && depth == ScanAll(s, text[..i + 1]).depth == 0
              && forall j :: 0 <= j <= i ==> ScanAll(s, text[..j]).depth >= 1
    decreases |text|
  {
    if text == "" {
      assert text[..0] == "";
    } else {
      var next := Step(s, text[0]);
      forall j | 1 <= j <= |text| ensures ScanAll(s, text[..j]) == ScanAll(next, text[1..][..j - 1]) {
        assert text[..j][1..] == text[1..][..j - 1];
      }
      assert text[..0] == "";
      if next.depth >= 1 {
        FindIsFirst(next, text[1..]);
        forall j | 0 <= j <= |text| && ScanAll(s, text[..j]).depth < 1
          ensures j >= 1 && ScanAll(next, text[1..][..j - 1]).depth < 1 {
        }
      } else {
        assert text[1..][..0] == "";
      }
    }
  }

  /** The depth first returns to zero right after position i. */
  ghost predicate ReturnsAt(text: string, start: nat, i: nat)
    requires start < |text|
  {
    && start < i < |text|
    && DepthAfter(text, start, i + 1) == 0
    && forall j :: start < j <= i ==> DepthAfter(text, start, j) >= 1
  }

  lemma DepthFromOpening(text: string, start: nat, j: nat)
    requires start < |text| && Opening(text[start]) && start < j <= |text|
    ensures DepthAfter(text, start, j) == ScanAll(Scan(1, Outside), text[start + 1..][..j - start - 1]).depth
  {
    assert text[start..j][0] == text[start];
    assert text[start..j][1..] == text[start + 1..][..j - start - 1];
  }

  lemma FindInside(text: string, start: nat)
    requires start < |text| && Opening(text[start])
    ensures Find(Scan(0, Outside), text[start..]) == Shift(1, Find(Scan(1, Outside), text[start + 1..]))
  {
    hide Find;
    FindStep(Scan(0, Outside), text, start);
  }

  lemma FindFromOpening(text: string, start: nat)
    requires start < |text| && Opening(text[start])
    ensures match Find(Scan(0, Outside), text[start..])
            case None => forall j :: start < j <= |text| ==> DepthAfter(text, start, j) >= 1
            case Some((n, depth)) => depth == 0 && ReturnsAt(text, start, start + n)
  {
    hide Find, ScanAll, DepthAfter, Step, Opening;
    FindInside(text, start);
    var inside, tail := Scan(1, Outside), text[start + 1..];
    FindIsFirst(inside, tail);
    var found := Find(inside, tail);
    var limit := if found.None? then |text| else start + 1 + found.value.0;
    forall j | start < j <= limit ensures DepthAfter(text, start, j) >= 1 {
      DepthFromOpening(text, start, j);
    }
    if found.Some? {
      DepthFromOpening(text, start, limit + 1);
    }
  }

  /** From an opening bracket the result ends at the least position after which the depth
      outside strings is back to zero, and is empty when there is none. */
  lemma EndsWhereDepthReturns(text: string, start: nat, i: nat)
    requires start < |text| && Opening(text[start]) && start < i < |text|
    ensures Balanced(text, start) == text[start..i + 1] <==> ReturnsAt(text, start, i)
    ensures Balanced(text, start) == "" <==> forall j: nat :: !ReturnsAt(text, start, j)
  {
    hide Find, DepthAfter;
    FindFromOpening(text, start);
    var found := Find(Scan(0, Outside), text[start..]);
    if found.None? {
      assert |text[start..i + 1]| > 0;
      forall j: nat ensures !ReturnsAt(text, start, j) {
        if start < j < |text| {
          assert DepthAfter(text, start, j + 1) >= 1;
        }
      }
    } else {
      var end := start + found.value.0;
      assert Balanced(text, start) == text[start..end + 1];
      assert |text[start..end + 1]| == end + 1 - start && |text[start..i + 1]| == i + 1 - start;
    }
  }

  // ------------------------------------------------------------ rendered JSON

  /** Numbers, booleans and null are atoms. */
  datatype Json =
    | Atom(text: string)
    | Str(value: string)
    | Arr(items: seq<Json>)
    | Obj(members: seq<(string, Json)>)

  predicate Plain(text: string) {
    forall c :: c in text ==> c != '"' && !Opening(c) && !Closing(c)
  }

  predicate WellFormed(v: Json) {
    match v
    case Atom(text) => Plain(text)
    case Str(_) => true
    case Arr(items) => forall k :: 0 <= k < |items| ==> WellFormed(items[k])
    case Obj(members) => forall k :: 0 <= k < |members| ==> WellFormed(members[k].1)
  }

  function EscapeChar(c: char): string {
    if c == '"' || c == '\\' then ['\\', c] else if c == '\n' then "\\n" else [c]
  }

  function Escape(value: string): string {
    if value == "" then "" else EscapeChar(value[0]) + Escape(value[1..])
  }

  function Quoted(value: string): string {
    "\"" + Escape(value) + "\""
  }

  /** JSON text with the same white space between all tokens. */
  function Render(v: Json, ws: string): string
    decreases v, 1, 0
  {
    match v
    case Atom(text) => text
    case Str(value) => Quoted(value)
    case Arr(items) => "[" + RenderItems(v, items, ws) + "]"
    case Obj(members) => "{" + RenderMembers(v, members, ws) + "}"
  }

  function RenderItems(parent: Json, items: seq<Json>, ws: string): string
    requires forall k :: 0 <= k < |items| ==> items[k] < parent
    decreases parent, 0, |items|
  {
    if items == [] then ws
    else ws + Render(items[0], ws) + ws + (if |items| == 1 then "" else ",") + RenderItems(parent, items[1..], ws)
  }

  function RenderMembers(parent: Json, members: seq<(string, Json)>, ws: string): string
    requires forall k :: 0 <= k < |members| ==> members[k].1 < parent
    decreases parent, 0, |members|
  {
    if members == [] then ws
    else
      (ws + Quoted(members[0].0)) + (ws + ":" + ws) + Render(members[0].1, ws)
      + ((ws + if |members| == 1 then "" else ",") + RenderMembers(parent, members[1..], ws))
  }

  /** Looking in `text + rest` at an open depth is looking in `rest`. */
  ghost predicate Passes(depth: int, text: string, rest: string) {
    Find(Scan(depth, Outside), text + rest) == Shift(|text|, Find(Scan(depth, Outside), rest))
  }

  lemma {:induction false} PlainPasses(depth: int, text: string, rest: string)
    requires Plain(text)
    ensures Passes(depth, text, rest)
    decreases |text|
  {
    if text == "" {
      assert text + rest == rest;
    } else {
      assert (text + rest)[1..] == text[1..] + rest;
      assert forall c :: c in text[1..] ==> c in text;
      PlainPasses(depth, text[1..], rest);
    }
  }

  lemma EscapedCharPasses(depth: int, c: char, rest: string)
    ensures Find(Scan(depth, InString), EscapeChar(c) + rest) ==
            Shift(|EscapeChar(c)|, Find(Scan(depth, InString), rest))
  {
    var text := EscapeChar(c) + rest;
    assert text[|EscapeChar(c)|..] == rest;
    if |EscapeChar(c)| == 2 {
      assert text[1..][1..] == rest;
    }
  }

  lemma {:induction false} EscapedPasses(depth: int, value: string, rest: string)
    ensures Find(Scan(depth, InString), Escape(value) + ("\"" + rest)) ==
            Shift(|Escape(value)| + 1, Find(Scan(depth, Outside), rest))
    decreases |value|
  {
    var tail := "\"" + rest;
    if value == "" {
      assert tail[0] == '"' && tail[1..] == rest;
      assert "" + tail == tail;
    } else {
      EscapedPasses(depth, value[1..], rest);
      EscapedCharPasses(depth, value[0], Escape(value[1..]) + tail);
      assert Escape(value) + tail == EscapeChar(value[0]) + (Escape(value[1..]) + tail);
    }
  }

  lemma QuotedPasses(depth: int, value: string, rest: string)
    ensures Passes(depth, Quoted(value), rest)
  {
    var text := Quoted(value) + rest;
    assert text[0] == '"' && text[1..] == Escape(value) + ("\"" + rest);
    EscapedPasses(depth, value, rest);
  }

  lemma PassBoth(depth: int, a: string, b: string, rest: string)
    requires Passes(depth, a, b + rest) && Passes(depth, b, rest)
    ensures Passes(depth, a + b, rest)
  {
    assert a + b + rest == a + (b + rest);
  }

  lemma {:induction false} ValuePasses(v: Json, ws: string, depth: int, rest: string)
    requires WellFormed(v) && Plain(ws) && depth >= 1
    ensures Passes(depth, Render(v, ws), rest)
    decreases v, 1, 0
  {
    match v
    case Atom(text) => PlainPasses(depth, text, rest);
    case Str(value) => QuotedPasses(depth, value, rest);
    case Arr(items) => {
      ItemsPass(v, items, ws, depth + 1, "]" + rest);
      Enclosed(depth, "[", RenderItems(v, items, ws), "]", rest);
    }
    case Obj(members) => {
      MembersPass(v, members, ws, depth + 1, "}" + rest);
      Enclosed(depth, "{", RenderMembers(v, members, ws), "}", rest);
    }
  }

  /** One step of the search, on the first character of a text. */
  lemma FindFirst(depth: int, c: string, rest: string)
    requires |c| == 1
    ensures Opening(c[0]) ==> Find(Scan(depth, Outside), c + rest) == Shift(1, Find(Scan(depth + 1, Outside), rest))
    ensures Closing(c[0]) ==> Find(Scan(depth, Outside), c + rest) ==
                              if depth <= 1 then Some((0, depth - 1))
                              else Shift(1, Find(Scan(depth - 1, Outside), rest))
  {
    hide Find;
    var text := c + rest;
    assert text[0] == c[0] && text[0..] == text && text[1..] == rest;
    FindStep(Scan(depth, Outside), text, 0);
  }

  lemma Enclosed(depth: int, open: string, inner: string, close: string, rest: string)
    requires |open| == |close| == 1 && Opening(open[0]) && Closing(close[0])
    requires Passes(depth + 1, inner, close + rest)
    ensures depth >= 1 ==> Passes(depth, open + inner + close, rest)
    ensures depth == 0 ==> Find(Scan(0, Outside), open + inner + close + rest) == Some((|inner| + 1, 0))
  {
    hide Find;
    FindFirst(depth, open, inner + (close + rest));
    FindFirst(depth + 1, close, rest);
    assert open + inner + close + rest == open + (inner + (close + rest));
  }

  lemma {:induction false} ItemsPass(parent: Json, items: seq<Json>, ws: string, depth: int, rest: string)
    requires forall k :: 0 <= k < |items| ==> items[k] < parent && WellFormed(items[k])
    requires Plain(ws) && depth >= 1
    ensures Passes(depth, RenderItems(parent, items, ws), rest)
    decreases parent, 0, |items|
  {
    hide Passes, Render;
    if items == [] {
      PlainPasses(depth, ws, rest);
    } else {
      var value, comma := Render(items[0], ws), if |items| == 1 then "" else ",";
      var more := RenderItems(parent, items[1..], ws);
      ItemsPass(parent, items[1..], ws, depth, rest);
      PlainPasses(depth, comma, more + rest);
      PassBoth(depth, comma, more, rest);
      PlainPasses(depth, ws, (comma + more) + rest);
      PassBoth(depth, ws, comma + more, rest);
      ValuePasses(items[0], ws, depth, (ws + (comma + more)) + rest);
      PassBoth(depth, value, ws + (comma + more), rest);
      PlainPasses(depth, ws, (value + (ws + (comma + more))) + rest);
      PassBoth(depth, ws, value + (ws + (comma + more)), rest);
      assert RenderItems(parent, items, ws) == ws + (value + (ws + (comma + more)));
    }
  }

  lemma {:induction false} MembersPass(parent: Json, members: seq<(string, Json)>, ws: string, depth: int, rest: string)
    requires forall k :: 0 <= k < |members| ==> members[k].1 < parent && WellFormed(members[k].1)
    requires Plain(ws) && depth >= 1
    ensures Passes(depth, RenderMembers(parent, members, ws), rest)
    decreases parent, 0, |members|
  {
    hide Passes, Render, Quoted;
    if members == [] {
      PlainPasses(depth, ws, rest);
    } else {
      var key, colon, value := ws + Quoted(members[0].0), ws + ":" + ws, Render(members[0].1, ws);
      var comma := ws + if |members| == 1 then "" else ",";
      var more := RenderMembers(parent, members[1..], ws);
      MembersPass(parent, members[1..], ws, depth, rest);
      PlainPasses(depth, comma, more + rest);
      PassBoth(depth, comma, more, rest);
      var end := comma + more;
      ValuePasses(members[0].1, ws, depth, end + rest);
      KeyPasses(depth, ws, members[0].0, value + (end + rest));
      PassBoth(depth, value, end, rest);
      assert value + (end + rest) == (value + end) + rest;
      PassBoth(depth, key + colon, value + end, rest);
      assert RenderMembers(parent, members, ws) == (key + colon) + (value + end);
    }
  }

  lemma KeyPasses(depth: int, ws: string, key: string, rest: string)
    requires Plain(ws)
    ensures Passes(depth, (ws + Quoted(key)) + (ws + ":" + ws), rest)
  {
    hide Passes, Quoted;
    var colon := ws + ":" + ws;
    PlainPasses(depth, colon, rest);
    QuotedPasses(depth, key, colon + rest);
    PlainPasses(depth, ws, Quoted(key) + (colon + rest));
    PassBoth(depth, ws, Quoted(key), colon + rest);
    PassBoth(depth, ws + Quoted(key), colon, rest);
  }

  /** A rendered array or object, anywhere in a text, is cut out exactly. */
  lemma CutsRenderedValue(v: Json, ws: string, before: string, after: string)
    requires WellFormed(v) && Plain(ws) && (v.Arr? || v.Obj?)
    ensures Balanced(before + Render(v, ws) + after, |before|) == Render(v, ws)
  {
    hide Passes, Find;
    var text := before + Render(v, ws) + after;
    assert text[|before|..] == Render(v, ws) + after;
    assert text[|before|..|before| + |Render(v, ws)|] == Render(v, ws);
    if v.Arr? {
      ItemsPass(v, v.items, ws, 1, "]" + after);
      Enclosed(0, "[", RenderItems(v, v.items, ws), "]", after);
    } else {
      MembersPass(v, v.members, ws, 1, "}" + after);
      Enclosed(0, "{", RenderMembers(v, v.members, ws), "}", after);
    }
  }
}
