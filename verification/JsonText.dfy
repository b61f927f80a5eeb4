/**
 JSON values, the text ECMAScript prints for them without white space, and a reader of JSON
 text. A number is represented by the text printed for it.
 */
module JsonText {
  import opened Common

  predicate IsNumberChar(c: char) {
    '0' <= c <= '9' || c == '-' || c == '+' || c == '.' || c == 'e'
  }

  type NumberText = t: string | t != "" && forall i :: 0 <= i < |t| ==> IsNumberChar(t[i])
    witness "0"

  datatype Member = Member(key: string, value: Json)

  /** An object keeps its members in insertion order, as JavaScript objects do. */
  datatype Json =
    | Null
    | Bool(b: bool)
    | Num(number: NumberText)
    | Str(s: string)
    | Arr(items: seq<Json>)
    | Obj(members: seq<Member>)

  // ---------------------------------------------------------------- text

  const HEX := "0123456789abcdef"

  function EscapeChar(c: char): string {
    if c == '\"' then "\\\""
    else if c == '\\' then "\\\\"
    else if c as int == 8 then "\\b"
    else if c as int == 9 then "\\t"
    else if c as int == 10 then "\\n"
    else if c as int == 12 then "\\f"
    else if c as int == 13 then "\\r"
    else if (c as int) < 32 then "\\u00" + [HEX[c as int / 16], HEX[c as int % 16]]
    else [c]
  }

  /** A string's escaped characters and its closing quote. */
  function QuoteRest(s: string): string {
    if s == "" then "\"" else EscapeChar(s[0]) + QuoteRest(s[1..])
  }

  function Quote(s: string): string {
    "\"" + QuoteRest(s)
  }

  function Text(j: Json): string
    decreases j, 1
  {
    match j
    case Null => "null"
    case Bool(b) => if b then "true" else "false"
    case Num(t) => t
    case Str(s) => Quote(s)
    case Arr(items) => "[" + ItemsText(items, true)
    case Obj(members) => "{" + MembersText(members, true)
  }

  function Comma(first: bool): string {
    if first then "" else ","
  }

  function ItemsText(items: seq<Json>, first: bool): string
    decreases items, 0
  {
    if items == [] then "]"
    else Comma(first) + Text(items[0]) + ItemsText(items[1..], false)
  }

  function MembersText(members: seq<Member>, first: bool): string
    decreases members, 0
  {
    if members == [] then "}"
    else
      Comma(first) + MemberText(members[0]) + MembersText(members[1..], false)
  }

  function MemberText(m: Member): string
    decreases m, 0
  {
    Quote(m.key) + ":" + Text(m.value)
  }

  // ---------------------------------------------------------------- a reader

  function HexValue(c: char): Option<int> {
    if '0' <= c <= '9' then Some(c as int - '0' as int)
    else if 'a' <= c <= 'f' then Some(c as int - 'a' as int + 10)
    else if 'A' <= c <= 'F' then Some(c as int - 'A' as int + 10)
    else None
  }

  /** The character that four hexadecimal digits name, other than half of a surrogate pair. */
  function ReadHex(w: string): Option<char>
    requires |w| == 4
  {
    match (HexValue(w[0]), HexValue(w[1]), HexValue(w[2]), HexValue(w[3]))
    case (Some(a), Some(b), Some(c), Some(d)) =>
      var n := ((a * 16 + b) * 16 + c) * 16 + d;
      if 0 <= n < 0xD800 || 0xE000 <= n < 0x10000 then Some(n as char) else None
    case _ => None
  }

  /** One character of a string, and how much text stands for it. */
  function ReadChar(w: string): (r: Option<(char, nat)>)
    ensures r.Some? ==> 1 <= r.value.1 <= |w|
  {
    if w == "" || w[0] == '\"' || (w[0] as int) < 32 then None
    else if w[0] != '\\' then Some((w[0], 1))
    else if |w| < 2 then None
    else
      match w[1]
      case '\"' => Some(('\"', 2))
      case '\\' => Some(('\\', 2))
      case '/' => Some(('/', 2))
      case 'b' => Some((8 as char, 2))
      case 'f' => Some((12 as char, 2))
      case 'n' => Some((10 as char, 2))
      case 'r' => Some((13 as char, 2))
      case 't' => Some((9 as char, 2))
      case 'u' =>
        if |w| < 6 then None
        else (match ReadHex(w[2..6]) case None => None case Some(c) => Some((c, 6)))
      case _ => None
  }

  /** The characters of a string up to its closing quote, and the text after it. */
  function ReadQuoteRest(w: string): (r: Option<(string, string)>)
    ensures r.Some? ==> |r.value.1| < |w|
    decreases |w|
  {
    if w != "" && w[0] == '\"' then Some(("", w[1..]))
    else
      match ReadChar(w)
      case None => None
      case Some((c, n)) =>
        match ReadQuoteRest(w[n..])
        case None => None
        case Some((s, rest)) => Some(([c] + s, rest))
  }

  function NumberLength(w: string): (n: nat)
    ensures n <= |w| && forall i :: 0 <= i < n ==> IsNumberChar(w[i])
  {
    if w == "" || !IsNumberChar(w[0]) then 0 else 1 + NumberLength(w[1..])
  }

  /** The value a text begins with, and what follows it. */
  function ReadJson(w: string): (r: Option<(Json, string)>)
    ensures r.Some? ==> |r.value.1| < |w|
    decreases |w|, 2
  {
    if w == "" then None
    else if w[0] == 'n' then (if "null" <= w then Some((Null, w[4..])) else None)
    else if w[0] == 't' then (if "true" <= w then Some((Bool(true), w[4..])) else None)
    else if w[0] == 'f' then (if "false" <= w then Some((Bool(false), w[5..])) else None)
    else if w[0] == '\"' then
      (match ReadQuoteRest(w[1..]) case None => None case Some((s, rest)) => Some((Str(s), rest)))
    else if w[0] == '[' then
      if |w| > 1 && w[1] == ']' then Some((Arr([]), w[2..]))
      else (match ReadItems(w[1..]) case None => None case Some((items, rest)) => Some((Arr(items), rest)))
    else if w[0] == '{' then
      if |w| > 1 && w[1] == '}' then Some((Obj([]), w[2..]))
      else (match ReadMembers(w[1..]) case None => None case Some((members, rest)) => Some((Obj(members), rest)))
    else if IsNumberChar(w[0]) then Some((Num(w[..NumberLength(w)]), w[NumberLength(w)..]))
    else None
  }

  /** One item or more, up to the closing bracket. */
  function ReadItems(w: string): (r: Option<(seq<Json>, string)>)
    ensures r.Some? ==> |r.value.1| < |w|
    decreases |w|, 3
  {
    match ReadJson(w)
    case None => None
    case Some((item, rest)) =>
      if rest != "" && rest[0] == ']' then Some(([item], rest[1..]))
      else if rest != "" && rest[0] == ',' then
        (match ReadItems(rest[1..]) case None => None case Some((items, end)) => Some(([item] + items, end)))
      else None
  }

  /** One member or more, up to the closing brace. */
  function ReadMembers(w: string): (r: Option<(seq<Member>, string)>)
    ensures r.Some? ==> |r.value.1| < |w|
    decreases |w|, 3
  {
    match ReadMember(w)
    case None => None
    case Some((member, rest)) =>
      if rest != "" && rest[0] == '}' then Some(([member], rest[1..]))
      else if rest != "" && rest[0] == ',' then
        (match ReadMembers(rest[1..]) case None => None case Some((members, end)) => Some(([member] + members, end)))
      else None
  }

  function ReadMember(w: string): (r: Option<(Member, string)>)
    ensures r.Some? ==> |r.value.1| < |w|
    decreases |w|, 1
  {
    if w == "" || w[0] != '\"' then None
    else
      match ReadQuoteRest(w[1..])
      case None => None
      case Some((key, rest)) =>
        if rest == "" || rest[0] != ':' then None
        else (match ReadJson(rest[1..]) case None => None case Some((v, end)) => Some((Member(key, v), end)))
  }

  // ---------------------------------------------------------------- texts read back

  /** What may follow a JSON text without becoming part of its last number. */
  predicate Stops(x: string) {
    x == "" || !IsNumberChar(x[0])
  }

  lemma Regroup(p: string, a: string, x: string)
    ensures (p + a) + x == p + (a + x)
  {
  }

  lemma RegroupThree(p: string, a: string, b: string, x: string)
    ensures ((p + a) + b) + x == p + (a + (b + x))
  {
  }

  lemma AfterFirst(c: char, x: string)
    ensures ([c] + x)[0] == c && ([c] + x)[1..] == x
  {
  }

  lemma EscapeReadsBack(c: char, x: string)
    ensures ReadChar(EscapeChar(c) + x) == Some((c, |EscapeChar(c)|))
    ensures (EscapeChar(c) + x)[0] != '\"' && (EscapeChar(c) + x)[|EscapeChar(c)|..] == x
  {
    var e := EscapeChar(c);
    if |e| == 1 {
      AfterFirst(c, x);
    } else if |e| == 2 {
      TwoThen(e, x);
    } else {
      HexReadsBack(c, x);
    }
  }

  lemma TwoThen(e: string, x: string)
    requires |e| == 2
    ensures (e + x)[0] == e[0] && (e + x)[1] == e[1] && (e + x)[2..] == x
  {
  }

  lemma HexReadsBack(c: char, x: string)
    requires |EscapeChar(c)| == 6
    ensures ReadChar(EscapeChar(c) + x) == Some((c, 6))
    ensures (EscapeChar(c) + x)[0] != '\"' && (EscapeChar(c) + x)[6..] == x
  {
    var e, w := EscapeChar(c), EscapeChar(c) + x;
    assert e[2..] == ['0', '0', HEX[c as int / 16], HEX[c as int % 16]];
    assert w[2..6] == e[2..] && w[0] == '\\' && w[1] == 'u';
    HexDigit(c as int / 16);
    HexDigit(c as int % 16);
  }

  lemma HexDigit(d: nat)
    requires d < 16
    ensures HexValue(HEX[d]) == Some(d)
  {
  }

  /** No text that reads as one character is shorter, and hexadecimal digits are lower case. */
  lemma EscapeIsShortest(c: char, w: string)
    requires ReadChar(w) == Some((c, |w|))
    ensures |EscapeChar(c)| <= |w|
    ensures c !in {'\"', '\\'} && c as int >= 32 ==> EscapeChar(c) == [c]
    ensures |EscapeChar(c)| == 6 ==> forall d :: d in EscapeChar(c) ==> !('A' <= d <= 'F')
  {
    if |EscapeChar(c)| == 6 {
      HexDigit(c as int / 16);
      HexDigit(c as int % 16);
      HexIsLower(c as int / 16);
      HexIsLower(c as int % 16);
    }
  }

  lemma HexIsLower(d: nat)
    requires d < 16
    ensures !('A' <= HEX[d] <= 'F')
  {
  }

  lemma ReadOneMore(w: string, c: char, n: nat, s: string, x: string)
    requires w != "" && w[0] != '\"' && ReadChar(w) == Some((c, n)) && ReadQuoteRest(w[n..]) == Some((s, x))
    ensures ReadQuoteRest(w) == Some(([c] + s, x))
  {
  }

  lemma {:induction false} QuoteReadsBack(s: string, x: string)
    ensures ReadQuoteRest(QuoteRest(s) + x) == Some((s, x))
  {
    if s == "" {
      AfterFirst('\"', x);
    } else {
      var e, tail := EscapeChar(s[0]), QuoteRest(s[1..]) + x;
      Regroup(e, QuoteRest(s[1..]), x);
      EscapeReadsBack(s[0], tail);
      QuoteReadsBack(s[1..], x);
      ReadOneMore(e + tail, s[0], |e|, s[1..], x);
      assert [s[0]] + s[1..] == s;
    }
  }

  lemma {:induction false} NumberReadsBack(t: string, x: string)
    requires (forall i :: 0 <= i < |t| ==> IsNumberChar(t[i])) && Stops(x)
    ensures NumberLength(t + x) == |t|
  {
    if t == "" {
      assert t + x == x;
    } else {
      assert (t + x)[1..] == t[1..] + x;
      NumberReadsBack(t[1..], x);
    }
  }

  lemma TextHead(j: Json)
    ensures Text(j) != "" && Text(j)[0] !in {']', '}', ',', ':', '|'}
  {
  }

  lemma ScalarReadsBack(j: Json, x: string)
    requires Stops(x) && (j.Null? || j.Bool? || j.Num?)
    ensures ReadJson(Text(j) + x) == Some((j, x))
  {
    var w := Text(j) + x;
    match j
    case Null => assert w[4..] == x;
    case Bool(b) =>
      assert w == (if b then "true" else "false") + x && w[0] != 'n';
      assert Text(j) <= w && w[|Text(j)|..] == x;
    case Num(t) =>
      NumberReadsBack(t, x);
      assert w[0] == t[0] && w[..|t|] == t && w[|t|..] == x;
  }

  lemma StringReadsBack(s: string, x: string)
    ensures ReadJson(Quote(s) + x) == Some((Str(s), x))
  {
    var body := QuoteRest(s) + x;
    Regroup(['\"'], QuoteRest(s), x);
    AfterFirst('\"', body);
    QuoteReadsBack(s, x);
    assert ReadJson(['\"'] + body) == Some((Str(s), x));
  }

  lemma EmptyReadBack(x: string)
    ensures ReadJson("[]" + x) == Some((Arr([]), x))
    ensures ReadJson("{}" + x) == Some((Obj([]), x))
  {
    var a, o := "[]" + x, "{}" + x;
    assert a[0] == '[' && a[1] == ']' && a[2..] == x;
    assert o[0] == '{' && o[1] == '}' && o[2..] == x;
  }

  lemma ArrayReadsBack(items: seq<Json>, body: string, x: string)
    requires body != "" && body[0] != ']' && ReadItems(body) == Some((items, x))
    ensures ReadJson("[" + body) == Some((Arr(items), x))
  {
    AfterFirst('[', body);
    assert "[" + body == ['['] + body && (['['] + body)[1] == body[0];
  }

  lemma ObjectReadsBack(members: seq<Member>, body: string, x: string)
    requires body != "" && body[0] != '}' && ReadMembers(body) == Some((members, x))
    ensures ReadJson("{" + body) == Some((Obj(members), x))
  {
    AfterFirst('{', body);
    assert "{" + body == ['{'] + body && (['{'] + body)[1] == body[0];
  }

  /** Every value is read back from its text, and so is what follows it. */
  lemma {:induction false} TextReadsBack(j: Json, x: string)
    requires Stops(x)
    ensures ReadJson(Text(j) + x) == Some((j, x))
    decreases j, 1
  {
    match j
    case Null => ScalarReadsBack(j, x);
    case Bool(_) => ScalarReadsBack(j, x);
    case Num(_) => ScalarReadsBack(j, x);
    case Str(s) => StringReadsBack(s, x);
    case Arr(items) => ArrayTextReadsBack(items, x);
    case Obj(members) => ObjectTextReadsBack(members, x);
  }

  lemma {:induction false} ArrayTextReadsBack(items: seq<Json>, x: string)
    ensures ReadJson(Text(Arr(items)) + x) == Some((Arr(items), x))
    decreases items, 1
  {
    if items == [] {
      assert Text(Arr(items)) == "[]";
      EmptyReadBack(x);
    } else {
      var body := (Text(items[0]) + ItemsText(items[1..], false)) + x;
      assert Text(Arr(items)) + x == "[" + body;
      TextHead(items[0]);
      ItemsReadBack(items, x);
      ArrayReadsBack(items, body, x);
    }
  }

  lemma {:induction false} ObjectTextReadsBack(members: seq<Member>, x: string)
    ensures ReadJson(Text(Obj(members)) + x) == Some((Obj(members), x))
    decreases members, 1
  {
    if members == [] {
      assert Text(Obj(members)) == "{}";
      EmptyReadBack(x);
    } else {
      var body := MembersText(members, true) + x;
      assert Text(Obj(members)) + x == "{" + body;
      MembersSplit(members[0], members[1..], x);
      assert members == [members[0]] + members[1..];
      assert body[0] == MemberText(members[0])[0] == '\"';
      MembersReadBack(members, x);
      ObjectReadsBack(members, body, x);
    }
  }

  lemma ReadLastItem(w: string, item: Json, x: string)
    requires ReadJson(w) == Some((item, "]" + x))
    ensures ReadItems(w) == Some(([item], x))
  {
    assert ("]" + x)[1..] == x;
  }

  lemma ReadMoreItems(w: string, item: Json, next: string, tail: seq<Json>, x: string)
    requires ReadJson(w) == Some((item, "," + next)) && ReadItems(next) == Some((tail, x))
    ensures ReadItems(w) == Some(([item] + tail, x))
  {
    assert ("," + next)[1..] == next;
  }

  lemma ItemsContinue(tail: seq<Json>, x: string)
    requires tail != []
    ensures ItemsText(tail, false) + x == "," + ((Text(tail[0]) + ItemsText(tail[1..], false)) + x)
  {
    RegroupThree(",", Text(tail[0]), ItemsText(tail[1..], false), x);
    Regroup(Text(tail[0]), ItemsText(tail[1..], false), x);
  }

  lemma {:induction false} ItemsReadBack(items: seq<Json>, x: string)
    requires items != []
    ensures ReadItems((Text(items[0]) + ItemsText(items[1..], false)) + x) == Some((items, x))
    decreases items, 0
  {
    var tail := items[1..];
    var w := (Text(items[0]) + ItemsText(tail, false)) + x;
    Regroup(Text(items[0]), ItemsText(tail, false), x);
    if tail == [] {
      assert w == Text(items[0]) + ("]" + x);
      TextReadsBack(items[0], "]" + x);
      ReadLastItem(w, items[0], x);
      assert items == [items[0]];
    } else {
      var next := (Text(tail[0]) + ItemsText(tail[1..], false)) + x;
      ItemsContinue(tail, x);
      TextReadsBack(items[0], "," + next);
      ItemsReadBack(tail, x);
      ReadMoreItems(w, items[0], next, tail, x);
      assert items == [items[0]] + tail;
    }
  }

  lemma ReadMemberParts(body: string, key: string, value: string, v: Json, after: string)
    requires ReadQuoteRest(body) == Some((key, ":" + value)) && ReadJson(value) == Some((v, after))
    ensures ReadMember("\"" + body) == Some((Member(key, v), after))
  {
    AfterFirst('\"', body);
    AfterFirst(':', value);
  }

  lemma {:induction false} MemberReadsBack(m: Member, after: string)
    requires ReadJson(Text(m.value) + after) == Some((m.value, after))
    ensures ReadMember(MemberText(m) + after) == Some((m, after))
  {
    var value := Text(m.value) + after;
    var body := QuoteRest(m.key) + (":" + value);
    assert MemberText(m) + after == "\"" + body;
    QuoteReadsBack(m.key, ":" + value);
    ReadMemberParts(body, m.key, value, m.value, after);
  }

  lemma MembersSplit(m: Member, tail: seq<Member>, x: string)
    ensures MembersText([m] + tail, true) + x == MemberText(m) + (MembersText(tail, false) + x)
  {
    assert ([m] + tail)[1..] == tail;
    assert "" + MemberText(m) == MemberText(m);
  }

  lemma MembersContinue(tail: seq<Member>, x: string)
    requires tail != []
    ensures MembersText(tail, false) + x == "," + (MembersText(tail, true) + x)
  {
    MembersSplit(tail[0], tail[1..], x);
    RegroupThree(",", MemberText(tail[0]), MembersText(tail[1..], false), x);
    assert tail == [tail[0]] + tail[1..];
  }

  lemma ReadLastMember(w: string, m: Member, x: string)
    requires ReadMember(w) == Some((m, "}" + x))
    ensures ReadMembers(w) == Some(([m], x))
  {
    assert ("}" + x)[1..] == x;
  }

  lemma ReadMoreMembers(w: string, m: Member, next: string, tail: seq<Member>, x: string)
    requires ReadMember(w) == Some((m, "," + next)) && ReadMembers(next) == Some((tail, x))
    ensures ReadMembers(w) == Some(([m] + tail, x))
  {
    assert ("," + next)[1..] == next;
  }

  lemma {:induction false} MembersReadBack(members: seq<Member>, x: string)
    requires members != []
    ensures ReadMembers(MembersText(members, true) + x) == Some((members, x))
    decreases members, 0
  {
    var m, tail := members[0], members[1..];
    var w := MembersText(members, true) + x;
    assert members == [m] + tail;
    MembersSplit(m, tail, x);
    assert w == MemberText(m) + (MembersText(tail, false) + x);
    if tail == [] {
      assert MembersText(tail, false) == "}";
      TextReadsBack(m.value, "}" + x);
      MemberReadsBack(m, "}" + x);
      ReadLastMember(w, m, x);
      assert members == [m];
    } else {
      var next := MembersText(tail, true) + x;
      MembersContinue(tail, x);
      TextReadsBack(m.value, "," + next);
      MemberReadsBack(m, "," + next);
      MembersReadBack(tail, x);
      ReadMoreMembers(w, m, next, tail, x);
    }
  }

  /** JSON texts need no separator: a text with what follows it splits in only one way. */
  lemma TextIsPrefixCode(a: Json, b: Json, x: string, y: string)
    requires Text(a) + x == Text(b) + y && Stops(x) && Stops(y)
    ensures a == b && x == y
  {
    TextReadsBack(a, x);
    TextReadsBack(b, y);
  }
}
