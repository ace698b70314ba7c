/**
 * The canonical text of a JSON value: object members in key order, strings escaped as JSON.stringify does, which
 * is one of the forms allowed by section 7 of RFC 8259.
 */
module CanonicalJson {
  import opened Options
  import opened Sorting

  /** A number is known by the text JSON.stringify prints for it. */
  datatype Json =
    | Null | Bool(b: bool) | Num(text: string) | Str(s: string) | Arr(items: seq<Json>) | Obj(members: seq<Member>)
  datatype Member = Member(key: string, value: Json)

  predicate IsNumberChar(c: char) {
    '0' <= c <= '9' || c == '-' || c == '+' || c == '.' || c == 'e'
  }

  predicate DistinctKeys(ms: seq<Member>) {
    forall i, j | 0 <= i < j < |ms| :: ms[i].key != ms[j].key
  }

  /** What JavaScript can hold: numbers print as numbers, an object has each key once. */
  predicate WellFormed(v: Json) {
    match v
    case Num(t) => t != "" && forall i | 0 <= i < |t| :: IsNumberChar(t[i])
    case Arr(items) => forall i | 0 <= i < |items| :: WellFormed(items[i])
    case Obj(ms) => DistinctKeys(ms) && forall i | 0 <= i < |ms| :: WellFormed(ms[i].value)
    case _ => true
  }

  // ----- Printing -----

  function HexDigit(n: nat): char
    requires n < 16
  {
    if n < 10 then '0' + n as char else 'a' + (n - 10) as char
  }

  function Escape(c: char): string {
    if c == '"' || c == '\\' then ['\\', c]
    else if c == '\U{08}' then ['\\', 'b']
    else if c == '\t' then ['\\', 't']
    else if c == '\n' then ['\\', 'n']
    else if c == '\U{0C}' then ['\\', 'f']
    else if c == '\r' then ['\\', 'r']
    else if c < ' ' then ['\\', 'u', '0', '0', HexDigit(c as int / 16), HexDigit(c as int % 16)]
    else [c]
  }

  /** Only quotes, backslashes and control characters are escaped, the common ones of the latter in two characters. */
  lemma OnlyEscapedIfNeeded(c: char)
    ensures Escape(c) == [c] <==> c >= ' ' && c != '"' && c != '\\'
    ensures |Escape(c)| == 2 <==> c == '"' || c == '\\' || c in {'\U{08}', '\t', '\n', '\U{0C}', '\r'}
    ensures |Escape(c)| == 1 || |Escape(c)| == 2 || |Escape(c)| == 6
  {
  }

  function EscapeAll(s: string): string {
    if s == "" then "" else Escape(s[0]) + EscapeAll(s[1..])
  }

  function Quote(s: string): string {
    ['"'] + EscapeAll(s) + ['"']
  }

  function Text(v: Json): string {
    match v
    case Null => "null"
    case Bool(b) => if b then "true" else "false"
    case Num(t) => t
    case Str(s) => Quote(s)
    case Arr(items) => ['['] + ItemsText(items) + [']']
    case Obj(ms) => ['{'] + MembersText(ms) + ['}']
  }

  function ItemsText(items: seq<Json>): string {
    if items == [] then ""
    else Text(items[0]) + if |items| == 1 then "" else [','] + ItemsText(items[1..])
  }

  function MemberText(m: Member): string {
    Quote(m.key) + [':'] + Text(m.value)
  }

  function MembersText(ms: seq<Member>): string {
    if ms == [] then ""
    else MemberText(ms[0]) + if |ms| == 1 then "" else [','] + MembersText(ms[1..])
  }

  function ByKey(le: (string, string) -> bool): (Member, Member) -> bool {
    (a: Member, b: Member) => le(a.key, b.key)
  }

  /** The value with the members of every object in key order; `le` stands for localeCompare. */
  function Ordered(le: (string, string) -> bool, v: Json): Json {
    match v
    case Arr(items) => Arr(OrderedItems(le, items))
    case Obj(ms) => Obj(Sort(ByKey(le), OrderedMembers(le, ms)))
    case _ => v
  }

  function OrderedItems(le: (string, string) -> bool, items: seq<Json>): (r: seq<Json>)
    ensures |r| == |items| && forall i | 0 <= i < |items| :: r[i] == Ordered(le, items[i])
  {
    if items == [] then [] else [Ordered(le, items[0])] + OrderedItems(le, items[1..])
  }

  function OrderedMembers(le: (string, string) -> bool, ms: seq<Member>): (r: seq<Member>)
    ensures |r| == |ms| && forall i | 0 <= i < |ms| :: r[i] == Member(ms[i].key, Ordered(le, ms[i].value))
  {
    if ms == [] then [] else [Member(ms[0].key, Ordered(le, ms[0].value))] + OrderedMembers(le, ms[1..])
  }

  function Canonicalize(le: (string, string) -> bool, v: Json): string {
    Text(Ordered(le, v))
  }

  // ----- Parsing -----

  function HexValue(c: char): Option<nat> {
    if '0' <= c <= '9' then Some(c as int - '0' as int)
    else if 'a' <= c <= 'f' then Some(c as int - 'a' as int + 10)
    else None
  }

  /** One character of a string, after any escape, and what follows it. */
  function Unescape(t: string): (r: Option<(char, string)>)
    ensures r.Some? ==> |r.value.1| < |t|
  {
    if t == "" then None
    else if t[0] != '\\' then Some((t[0], t[1..]))
    else if |t| < 2 then None
    else if t[1] == '"' || t[1] == '\\' then Some((t[1], t[2..]))
    else if t[1] == 'b' then Some(('\U{08}', t[2..]))
    else if t[1] == 't' then Some(('\t', t[2..]))
    else if t[1] == 'n' then Some(('\n', t[2..]))
    else if t[1] == 'f' then Some(('\U{0C}', t[2..]))
    else if t[1] == 'r' then Some(('\r', t[2..]))
    else if t[1] == 'u' && |t| >= 6 && t[2] == '0' && t[3] == '0' && HexValue(t[4]).Some? && HexValue(t[5]).Some? then
      Some(((HexValue(t[4]).value * 16 + HexValue(t[5]).value) as char, t[6..]))
    else None
  }

  /** A string after its opening quote. */
  function ParseString(t: string): (r: Option<(string, string)>)
    ensures r.Some? ==> |r.value.1| < |t|
    decreases |t|
  {
    if t == "" then None
    else if t[0] == '"' then Some(("", t[1..]))
    else
      var c := Unescape(t);
      if c.None? then None
      else
        var rest := ParseString(c.value.1);
        if rest.None? then None else Some(([c.value.0] + rest.value.0, rest.value.1))
  }

  function NumberLength(t: string): (n: nat)
    ensures n <= |t|
  {
    if t == "" || !IsNumberChar(t[0]) then 0 else 1 + NumberLength(t[1..])
  }

  function ParseLiteral(t: string, literal: string, v: Json): Option<(Json, string)> {
    if |literal| <= |t| && t[..|literal|] == literal then Some((v, t[|literal|..])) else None
  }

  /** A value at the front of `t`, and the text after it. */
  function ParseValue(t: string): (r: Option<(Json, string)>)
    ensures r.Some? ==> |r.value.1| < |t|
    decreases |t|, 0
  {
    if t == "" then None
    else if t[0] == 'n' then ParseLiteral(t, "null", Null)
    else if t[0] == 't' then ParseLiteral(t, "true", Bool(true))
    else if t[0] == 'f' then ParseLiteral(t, "false", Bool(false))
    else if t[0] == '"' then
      var s := ParseString(t[1..]);
      if s.None? then None else Some((Str(s.value.0), s.value.1))
    else if t[0] == '[' then
      if |t| > 1 && t[1] == ']' then Some((Arr([]), t[2..]))
      else
        var items := ParseItems(t[1..]);
        if items.None? then None else Some((Arr(items.value.0), items.value.1))
    else if t[0] == '{' then
      if |t| > 1 && t[1] == '}' then Some((Obj([]), t[2..]))
      else
        var ms := ParseMembers(t[1..]);
        if ms.None? then None else Some((Obj(ms.value.0), ms.value.1))
    else
      var n := NumberLength(t);
      if n == 0 then None else Some((Num(t[..n]), t[n..]))
  }

  /** The items of an array up to its closing bracket. */
  function ParseItems(t: string): (r: Option<(seq<Json>, string)>)
    ensures r.Some? ==> |r.value.1| < |t|
    decreases |t|, 1
  {
    var v := ParseValue(t);
    if v.None? || v.value.1 == "" then None
    else
      var rest := v.value.1;
      if rest[0] == ']' then Some(([v.value.0], rest[1..]))
      else if rest[0] == ',' then
        var more := ParseItems(rest[1..]);
        if more.None? then None else Some(([v.value.0] + more.value.0, more.value.1))
      else None
  }

  /** The members of an object up to its closing brace. */
  function ParseMembers(t: string): (r: Option<(seq<Member>, string)>)
    ensures r.Some? ==> |r.value.1| < |t|
    decreases |t|, 1
  {
    if t == "" || t[0] != '"' then None
    else
      var k := ParseString(t[1..]);
      if k.None? || k.value.1 == "" || k.value.1[0] != ':' then None
      else
        var v := ParseValue(k.value.1[1..]);
        if v.None? || v.value.1 == "" then None
        else
          var m, rest := Member(k.value.0, v.value.0), v.value.1;
          if rest[0] == '}' then Some(([m], rest[1..]))
          else if rest[0] == ',' then
            var more := ParseMembers(rest[1..]);
            if more.None? then None else Some(([m] + more.value.0, more.value.1))
          else None
  }

  // ----- Round trip -----

  lemma UnescapeEscape(c: char, rest: string)
    ensures Escape(c) != "" && Escape(c)[0] != '"'
    ensures Unescape(Escape(c) + rest) == Some((c, rest))
  {
    var e := Escape(c);
    assert (e + rest)[|e|..] == rest;
    if |e| == 6 {
      HexRoundTrip(c as int / 16);
      HexRoundTrip(c as int % 16);
    }
  }

  lemma HexRoundTrip(n: nat)
    requires n < 16
    ensures HexValue(HexDigit(n)) == Some(n)
  {
  }

  lemma {:induction false} StringRoundTrip(s: string, rest: string)
    ensures ParseString(EscapeAll(s) + ['"'] + rest) == Some((s, rest))
  {
    hide Escape, Unescape;
    var t := EscapeAll(s) + ['"'] + rest;
    if s == "" {
      assert t[1..] == rest;
    } else {
      var after := EscapeAll(s[1..]) + ['"'] + rest;
      assert t == Escape(s[0]) + after;
      UnescapeEscape(s[0], after);
      StringRoundTrip(s[1..], rest);
      assert [s[0]] + s[1..] == s;
    }
  }

  /** Nothing that follows a value could be taken for part of it. */
  predicate Ends(rest: string) {
    rest == "" || !IsNumberChar(rest[0])
  }

  lemma {:induction false} NumberRoundTrip(t: string, rest: string)
    requires (forall i | 0 <= i < |t| :: IsNumberChar(t[i])) && Ends(rest)
    ensures NumberLength(t + rest) == |t|
  {
    if t == "" {
      assert t + rest == rest;
    } else {
      assert (t + rest)[1..] == t[1..] + rest;
      NumberRoundTrip(t[1..], rest);
    }
  }

  lemma LiteralRoundTrip(literal: string, v: Json, rest: string)
    ensures ParseLiteral(literal + rest, literal, v) == Some((v, rest))
  {
    assert (literal + rest)[..|literal|] == literal && (literal + rest)[|literal|..] == rest;
  }

  lemma {:induction false} ValueRoundTrip(v: Json, rest: string)
    requires WellFormed(v) && Ends(rest)
    ensures Text(v) != "" && Text(v)[0] != ']' && Text(v)[0] != '}'
    ensures ParseValue(Text(v) + rest) == Some((v, rest))
    decreases v, 0
  {
    hide ParseString, ParseItems, ParseMembers, EscapeAll, ItemsText, MembersText, ParseLiteral;
    var t := Text(v) + rest;
    match v {
      case Null => LiteralRoundTrip("null", v, rest);
      case Bool(b) => LiteralRoundTrip(Text(v), v, rest);
      case Num(n) =>
        NumberRoundTrip(n, rest);
        assert IsNumberChar(n[0]);
        assert t[..|n|] == n && t[|n|..] == rest;
      case Str(s) =>
        StringRoundTrip(s, rest);
        assert t[1..] == EscapeAll(s) + ['"'] + rest;
      case Arr(items) => ArrayRoundTrip(items, rest);
      case Obj(ms) => ObjectRoundTrip(ms, rest);
    }
  }

  lemma EmptyText()
    ensures ItemsText([]) == "" && MembersText([]) == ""
  {
  }

  lemma {:induction false} ArrayRoundTrip(items: seq<Json>, rest: string)
    requires WellFormed(Arr(items)) && Ends(rest)
    ensures ParseValue(['['] + ItemsText(items) + [']'] + rest) == Some((Arr(items), rest))
    decreases items, 1
  {
    hide ParseString, ParseItems, ParseMembers, ParseLiteral, NumberLength, ItemsText, WellFormed;
    var t := ['['] + ItemsText(items) + [']'] + rest;
    if items == [] {
      assert ItemsText(items) == "" by { EmptyText(); }
      assert t[2..] == rest;
    } else {
      ItemsRoundTrip(items, rest);
      assert t[1..] == ItemsText(items) + [']'] + rest;
    }
  }

  /** What follows the first item, up to the end. */
  function AfterFirst(items: seq<Json>, rest: string): string
    requires items != []
  {
    if |items| == 1 then [']'] + rest else [','] + (ItemsText(items[1..]) + [']'] + rest)
  }

  lemma ItemsTextSplits(items: seq<Json>, rest: string)
    requires items != []
    ensures ItemsText(items) + [']'] + rest == Text(items[0]) + AfterFirst(items, rest)
    ensures Text(items[0]) != "" ==> ItemsText(items) != "" && ItemsText(items)[0] == Text(items[0])[0]
  {
    hide Text;
  }

  lemma WellFormedItems(items: seq<Json>)
    requires WellFormed(Arr(items)) && items != []
    ensures WellFormed(items[0]) && WellFormed(Arr(items[1..]))
  {
  }

  lemma {:induction false} ItemsRoundTrip(items: seq<Json>, rest: string)
    requires WellFormed(Arr(items)) && items != [] && Ends(rest)
    ensures ItemsText(items) != "" && ItemsText(items)[0] != ']'
    ensures ParseItems(ItemsText(items) + [']'] + rest) == Some((items, rest))
    decreases items, 0
  {
    hide ParseValue, Text, ItemsText, WellFormed;
    var after := AfterFirst(items, rest);
    ItemsTextSplits(items, rest);
    WellFormedItems(items);
    ValueRoundTrip(items[0], after);
    if |items| > 1 {
      ItemsRoundTrip(items[1..], rest);
      assert after[1..] == ItemsText(items[1..]) + [']'] + rest;
      assert [items[0]] + items[1..] == items;
    } else {
      assert after[1..] == rest && [items[0]] == items;
    }
  }

  lemma {:induction false} ObjectRoundTrip(ms: seq<Member>, rest: string)
    requires WellFormed(Obj(ms)) && Ends(rest)
    ensures ParseValue(['{'] + MembersText(ms) + ['}'] + rest) == Some((Obj(ms), rest))
    decreases ms, 1
  {
    hide ParseString, ParseItems, ParseMembers, ParseLiteral, NumberLength, MembersText, WellFormed;
    var t := ['{'] + MembersText(ms) + ['}'] + rest;
    if ms == [] {
      assert MembersText(ms) == "" by { EmptyText(); }
      assert t[2..] == rest;
    } else {
      MembersRoundTrip(ms, rest);
      assert t[1..] == MembersText(ms) + (['}'] + rest);
    }
  }

  lemma Regroup(a: string, b: string, c: string)
    ensures (a + b) + c == a + (b + c)
  {
  }

  /** The first member of a text, with its colon, and what the parser makes of the rest. */
  lemma FirstMember(m: Member, after: string)
    ensures var t := MemberText(m) + after;
            && t != "" && t[0] == '"' && MemberText(m) != "" && MemberText(m)[0] == '"'
            && ParseString(t[1..]) == Some((m.key, [':'] + (Text(m.value) + after)))
            && ([':'] + (Text(m.value) + after))[1..] == Text(m.value) + after
  {
    hide ParseString, Text, EscapeAll;
    var t := MemberText(m) + after;
    assert t[1..] == EscapeAll(m.key) + ['"'] + ([':'] + (Text(m.value) + after));
    StringRoundTrip(m.key, [':'] + (Text(m.value) + after));
  }

  /** One step of the parser over the members. */
  lemma MembersStep(m: Member, after: string)
    requires ParseValue(Text(m.value) + after) == Some((m.value, after)) && after != ""
    ensures var parsed := ParseMembers(MemberText(m) + after);
            && (after[0] == '}' ==> parsed == Some(([m], after[1..])))
            && (after[0] == ',' && ParseMembers(after[1..]).Some? ==>
                  parsed == Some(([m] + ParseMembers(after[1..]).value.0, ParseMembers(after[1..]).value.1)))
  {
    hide ParseValue, ParseString, MemberText, Text;
    FirstMember(m, after);
  }

  lemma {:induction false} MembersRoundTrip(ms: seq<Member>, rest: string)
    requires WellFormed(Obj(ms)) && ms != [] && Ends(rest)
    ensures MembersText(ms) != "" && MembersText(ms)[0] == '"'
    ensures ParseMembers(MembersText(ms) + (['}'] + rest)) == Some((ms, rest))
    decreases ms, 0
  {
    hide ParseValue, ParseString, ParseMembers, Text, MemberText, WellFormed;
    TailIsWellFormed(ms);
    var closing := ['}'] + rest;
    var tail := if |ms| == 1 then "" else [','] + MembersText(ms[1..]);
    var after := tail + closing;
    Regroup(MemberText(ms[0]), tail, closing);
    ValueRoundTrip(ms[0].value, after);
    FirstMember(ms[0], after);
    MembersStep(ms[0], after);
    if |ms| > 1 {
      MembersRoundTrip(ms[1..], rest);
      assert after[1..] == MembersText(ms[1..]) + closing;
    } else {
      assert after[1..] == rest && [ms[0]] == ms;
    }
  }

  lemma TailIsWellFormed(ms: seq<Member>)
    requires WellFormed(Obj(ms)) && ms != []
    ensures WellFormed(ms[0].value) && WellFormed(Obj(ms[1..])) && [ms[0]] + ms[1..] == ms
  {
  }

  // ----- Equal texts -----

  /** The same value but for the order in which objects list their members. */
  predicate Equivalent(a: Json, b: Json)
    decreases a
  {
    match a
    case Arr(xs) => b.Arr? && |xs| == |b.items| && forall i | 0 <= i < |xs| :: Equivalent(xs[i], b.items[i])
    case Obj(ms) =>
      && b.Obj? && |ms| == |b.members|
      && forall i | 0 <= i < |ms| ::
           exists j | 0 <= j < |b.members| ::
             ms[i].key == b.members[j].key && Equivalent(ms[i].value, b.members[j].value)
    case _ => a == b
  }

  lemma {:induction false} OrderedIsWellFormed(le: (string, string) -> bool, v: Json)
    requires WellFormed(v)
    ensures WellFormed(Ordered(le, v))
    decreases v
  {
    match v {
      case Arr(items) =>
        forall i | 0 <= i < |items| ensures WellFormed(OrderedItems(le, items)[i]) {
          OrderedIsWellFormed(le, items[i]);
        }
      case Obj(ms) =>
        var raw := OrderedMembers(le, ms);
        forall i | 0 <= i < |ms| ensures WellFormed(raw[i].value) {
          OrderedIsWellFormed(le, ms[i].value);
        }
        assert DistinctKeys(raw);
        SortedIsWellFormed(le, raw);
      case _ =>
    }
  }

  lemma SortedIsWellFormed(le: (string, string) -> bool, raw: seq<Member>)
    requires DistinctKeys(raw) && forall i | 0 <= i < |raw| :: WellFormed(raw[i].value)
    ensures WellFormed(Obj(Sort(ByKey(le), raw)))
  {
    hide Sort, ByKey;
    var s := Sort(ByKey(le), raw);
    SortPermutes(ByKey(le), raw);
    KeysStayDistinct(raw, s);
    forall i | 0 <= i < |s| ensures WellFormed(s[i].value) {
      assert s[i] in raw;
    }
  }

  lemma KeysStayDistinct(a: seq<Member>, b: seq<Member>)
    requires DistinctKeys(a) && multiset(a) == multiset(b)
    ensures DistinctKeys(b)
  {
    forall i, j | 0 <= i < j < |b| ensures b[i].key != b[j].key {
      MemberOnce(a, b[i]);
      TwoAreTwice(b, i, j);
      assert b[i] in multiset(a) && b[j] in multiset(a);
    }
  }

  lemma {:induction false} MemberOnce(s: seq<Member>, m: Member)
    requires DistinctKeys(s)
    ensures multiset(s)[m] <= 1
  {
    if s != [] {
      assert s == [s[0]] + s[1..];
      MemberOnce(s[1..], m);
      if m == s[0] {
        assert m !in s[1..];
      }
    }
  }

  lemma TwoAreTwice(s: seq<Member>, i: nat, j: nat)
    requires i < j < |s|
    ensures s[i] == s[j] ==> multiset(s)[s[i]] >= 2
  {
    assert s == s[..j] + s[j..];
    assert s[i] in s[..j] && s[j] in s[j..];
  }

  /** Parsing the canonical text gives back the value with its keys in order. */
  lemma CanonicalRoundTrip(le: (string, string) -> bool, v: Json)
    requires WellFormed(v)
    ensures ParseValue(Canonicalize(le, v)) == Some((Ordered(le, v), ""))
  {
    hide ParseValue, Ordered, Text, WellFormed;
    OrderedIsWellFormed(le, v);
    ValueRoundTrip(Ordered(le, v), "");
    assert Text(Ordered(le, v)) + "" == Text(Ordered(le, v));
  }

  function Dropped(b: seq<Member>, j: nat): (r: seq<Member>)
    requires j < |b|
    ensures |r| == |b| - 1
  {
    b[..j] + b[j + 1..]
  }

  lemma DropKeeps(b: seq<Member>, j: nat, m: Member)
    requires j < |b| && m in b && m != b[j]
    ensures m in Dropped(b, j)
  {
    var k :| 0 <= k < |b| && b[k] == m;
    assert if k < j then Dropped(b, j)[k] == m else Dropped(b, j)[k - 1] == m;
  }

  lemma DropCounts(b: seq<Member>, j: nat)
    requires j < |b|
    ensures multiset(b) == multiset(Dropped(b, j)) + multiset{b[j]}
  {
    assert b == b[..j] + [b[j]] + b[j + 1..];
  }

  /** Members with distinct keys, as many on both sides, each with its like on the other: the same multiset. */
  lemma {:induction false} SameMembers(a: seq<Member>, b: seq<Member>)
    requires DistinctKeys(a) && |a| == |b| && forall i | 0 <= i < |a| :: a[i] in b
    ensures multiset(a) == multiset(b)
    decreases |a|
  {
    hide Dropped;
    if a != [] {
      var j :| 0 <= j < |b| && b[j] == a[0];
      forall i | 0 <= i < |a[1..]| ensures a[1..][i] in Dropped(b, j) {
        assert a[0].key != a[i + 1].key;
        DropKeeps(b, j, a[i + 1]);
      }
      SameMembers(a[1..], Dropped(b, j));
      DropCounts(b, j);
      assert a == [a[0]] + a[1..];
    }
  }

  lemma ByKeyIsPreorder(le: (string, string) -> bool)
    requires TotalOrder(le)
    ensures Preorder(ByKey(le))
    ensures forall p, q :: ByKey(le)(p, q) && ByKey(le)(q, p) ==> p.key == q.key
  {
    var f := ByKey(le);
    forall x, y, z | f(x, y) && f(y, z) ensures f(x, z) {
      assert le(x.key, y.key) && le(y.key, z.key);
    }
    forall x, y ensures f(x, y) || f(y, x) {
      assert le(x.key, y.key) || le(y.key, x.key);
    }
  }

  lemma SortedAlike(le: (string, string) -> bool, a: seq<Member>, b: seq<Member>)
    requires TotalOrder(le) && DistinctKeys(a) && multiset(a) == multiset(b)
    ensures Sort(ByKey(le), a) == Sort(ByKey(le), b)
  {
    var x, y := Sort(ByKey(le), a), Sort(ByKey(le), b);
    ByKeyIsPreorder(le);
    SortPermutes(ByKey(le), a);
    SortPermutes(ByKey(le), b);
    SortSorts(ByKey(le), a);
    SortSorts(ByKey(le), b);
    hide ByKey, TotalOrder, Preorder, Sort, Sorted;
    forall p, q | p in x && q in x && ByKey(le)(p, q) && ByKey(le)(q, p) ensures p == q {
      assert p.key == q.key && p in a && q in a;
    }
    SortedUnique(ByKey(le), x, y);
  }

  lemma {:induction false} OrderedEquivalent(le: (string, string) -> bool, a: Json, b: Json)
    requires TotalOrder(le) && WellFormed(a) && WellFormed(b) && Equivalent(a, b)
    ensures Ordered(le, a) == Ordered(le, b)
    decreases a
  {
    hide Sort, TotalOrder;
    match a {
      case Arr(xs) =>
        forall i | 0 <= i < |xs| ensures OrderedItems(le, xs)[i] == OrderedItems(le, b.items)[i] {
          OrderedEquivalent(le, xs[i], b.items[i]);
        }
        assert OrderedItems(le, xs) == OrderedItems(le, b.items);
      case Obj(ms) =>
        var x, y := OrderedMembers(le, ms), OrderedMembers(le, b.members);
        forall i | 0 <= i < |x| ensures x[i] in y {
          var j :| 0 <= j < |b.members| && ms[i].key == b.members[j].key && Equivalent(ms[i].value, b.members[j].value);
          OrderedEquivalent(le, ms[i].value, b.members[j].value);
          assert y[j] == x[i];
        }
        SameMembers(x, y);
        SortedAlike(le, x, y);
      case _ =>
    }
  }

  lemma {:induction false} EquivalentIfOrdered(le: (string, string) -> bool, a: Json, b: Json)
    requires Ordered(le, a) == Ordered(le, b)
    ensures Equivalent(a, b)
    decreases a
  {
    hide Sort, ByKey;
    match a {
      case Arr(xs) =>
        forall i | 0 <= i < |xs| ensures Equivalent(xs[i], b.items[i]) {
          assert OrderedItems(le, xs)[i] == OrderedItems(le, b.items)[i];
          EquivalentIfOrdered(le, xs[i], b.items[i]);
        }
      case Obj(ms) =>
        assert b.Obj?;
        var x, y := OrderedMembers(le, ms), OrderedMembers(le, b.members);
        SameSorted(le, x, y);
        forall i | 0 <= i < |ms|
          ensures exists j | 0 <= j < |b.members| ::
                    ms[i].key == b.members[j].key && Equivalent(ms[i].value, b.members[j].value)
        {
          assert x[i] in y;
          var j :| 0 <= j < |y| && y[j] == x[i];
          EquivalentIfOrdered(le, ms[i].value, b.members[j].value);
        }
      case _ =>
    }
  }

  lemma SameSorted(le: (string, string) -> bool, x: seq<Member>, y: seq<Member>)
    requires Sort(ByKey(le), x) == Sort(ByKey(le), y)
    ensures |x| == |y| && forall m :: m in x ==> m in y
  {
    hide Sort, ByKey;
    SortPermutes(ByKey(le), x);
    SortPermutes(ByKey(le), y);
  }

  /** Two values have the same canonical text exactly when they are equal up to the order of keys. */
  lemma CanonicalTextsAgree(le: (string, string) -> bool, a: Json, b: Json)
    requires TotalOrder(le) && WellFormed(a) && WellFormed(b)
    ensures Canonicalize(le, a) == Canonicalize(le, b) <==> Equivalent(a, b)
  {
    hide ParseValue, Ordered, Text, WellFormed, Equivalent, TotalOrder;
    CanonicalRoundTrip(le, a);
    CanonicalRoundTrip(le, b);
    if Equivalent(a, b) {
      OrderedEquivalent(le, a, b);
    } else if Ordered(le, a) == Ordered(le, b) {
      EquivalentIfOrdered(le, a, b);
    }
  }
}
