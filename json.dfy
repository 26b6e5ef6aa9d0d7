/**
 * The JSON text the job store keeps in its `voice_assignments_json`,
 * `output_files_json` and `chapters_json` columns (database.py).
 *
 * Encoding is `json.dumps(..., ensure_ascii=False)` on lists of strings and
 * on objects whose values are strings or such objects; decoding is the part
 * of `json.loads` that reads those shapes back. Object members are written
 * in `Text.OrderedKeys` order, where Python keeps the dict's insertion
 * order; the decoded dict is the same either way.
 */
module Json {
  import opened Wrappers
  import opened Text

  // ---------------------------------------------------------------------
  // Strings
  // ---------------------------------------------------------------------

  function HexDigit(n: nat): (c: char)
    requires n < 16
  {
    if n < 10 then '0' + n as char else 'a' + (n - 10) as char
  }

  function HexValue(c: char): (r: Option<nat>)
    ensures r.Some? ==> r.value < 16
  {
    if '0' <= c <= '9' then Some(c as nat - '0' as nat)
    else if 'a' <= c <= 'f' then Some(c as nat - 'a' as nat + 10)
    else if 'A' <= c <= 'F' then Some(c as nat - 'A' as nat + 10)
    else None
  }

  lemma HexValueOfDigit(n: nat)
    requires n < 16
    ensures HexValue(HexDigit(n)) == Some(n)
  {
  }

  /** The four hex digits after `\u`. */
  function Hex4(h: string): (r: Option<nat>)
    requires |h| == 4
    ensures r.Some? ==> r.value < 0x10000
  {
    match (HexValue(h[0]), HexValue(h[1]), HexValue(h[2]), HexValue(h[3]))
    case (Some(a), Some(b), Some(c), Some(d)) => Some(((a * 16 + b) * 16 + c) * 16 + d)
    case _ => None
  }

  /** How `json.dumps(..., ensure_ascii=False)` writes one character inside a string. */
  function Escape(c: char): (r: string)
    ensures r != []
    ensures r[0] != '"'
  {
    if c == '"' then "\\\""
    else if c == '\\' then "\\\\"
    else if c == '\n' then "\\n"
    else if c == '\r' then "\\r"
    else if c == '\t' then "\\t"
    else if c == 8 as char then "\\b"
    else if c == 12 as char then "\\f"
    else if (c as int) < 0x20 then "\\u00" + [HexDigit(c as int / 16), HexDigit(c as int % 16)]
    else [c]
  }

  function EscapeAll(s: string): string {
    if s == [] then [] else Escape(s[0]) + EscapeAll(s[1..])
  }

  function EncodeString(s: string): string {
    "\"" + EscapeAll(s) + "\""
  }

  /** The character a one-letter escape stands for. */
  function Unescape(e: char): Option<char> {
    if e == '"' then Some('"')
    else if e == '\\' then Some('\\')
    else if e == '/' then Some('/')
    else if e == 'b' then Some(8 as char)
    else if e == 'f' then Some(12 as char)
    else if e == 'n' then Some('\n')
    else if e == 'r' then Some('\r')
    else if e == 't' then Some('\t')
    else None
  }

  function Prepend(c: char, r: Option<(string, string)>): Option<(string, string)> {
    match r
    case None => None
    case Some((body, rest)) => Some(([c] + body, rest))
  }

  /**
   * Reads the characters of a string literal up to its closing quote and
   * returns them with the text after the quote. Raw control characters are
   * refused, as `json.loads` does in its default strict mode.
   */
  function ParseChars(s: string): (r: Option<(string, string)>)
    ensures r.Some? ==> |r.value.1| < |s|
    decreases |s|
  {
    if s == [] then None
    else if s[0] == '"' then Some(([], s[1..]))
    else if s[0] == '\\' then
      if |s| < 2 then None
      else if s[1] == 'u' then
        if |s| < 6 then None
        else match Hex4(s[2..6])
          case None => None
          case Some(n) => if 0xD800 <= n <= 0xDFFF then None else Prepend(n as char, ParseChars(s[6..]))
      else match Unescape(s[1])
        case None => None
        case Some(c) => Prepend(c, ParseChars(s[2..]))
    else if (s[0] as int) < 0x20 then None
    else Prepend(s[0], ParseChars(s[1..]))
  }

  function ParseString(s: string): (r: Option<(string, string)>)
    ensures r.Some? ==> |r.value.1| < |s|
  {
    if s == [] || s[0] != '"' then None else ParseChars(s[1..])
  }

  lemma EscapeStep(c: char, tail: string)
    ensures ParseChars(Escape(c) + tail) == Prepend(c, ParseChars(tail))
  {
    var e := Escape(c);
    if c == '"' || c == '\\' || c == '\n' || c == '\r' || c == '\t' || c == 8 as char || c == 12 as char {
      assert (e + tail)[2..] == tail;
    } else if (c as int) < 0x20 {
      var n := c as int;
      var s := e + tail;
      assert s[2..6] == ['0', '0', HexDigit(n / 16), HexDigit(n % 16)];
      HexValueOfDigit(n / 16);
      HexValueOfDigit(n % 16);
      assert Hex4(s[2..6]) == Some(n);
      assert s[6..] == tail;
    } else {
      assert (e + tail)[1..] == tail;
    }
  }

  lemma {:induction false} CharsRoundTrip(x: string, rest: string)
    ensures ParseChars(EscapeAll(x) + "\"" + rest) == Some((x, rest))
  {
    if x == [] {
      assert EscapeAll(x) + "\"" + rest == "\"" + rest;
    } else {
      assert EscapeAll(x) + "\"" + rest == Escape(x[0]) + (EscapeAll(x[1..]) + "\"" + rest);
      EscapeStep(x[0], EscapeAll(x[1..]) + "\"" + rest);
      CharsRoundTrip(x[1..], rest);
      assert [x[0]] + x[1..] == x;
    }
  }

  /** Reading back a written string gives the string and leaves what follows it. */
  lemma StringRoundTrip(x: string, rest: string)
    ensures ParseString(EncodeString(x) + rest) == Some((x, rest))
  {
    assert (EncodeString(x) + rest)[1..] == EscapeAll(x) + "\"" + rest;
    CharsRoundTrip(x, rest);
  }

  // ---------------------------------------------------------------------
  // Whitespace between tokens
  // ---------------------------------------------------------------------

  predicate IsJsonSpace(c: char) {
    c == ' ' || c == '\t' || c == '\n' || c == '\r'
  }

  function SkipSpace(s: string): (r: string)
    ensures |r| <= |s|
    ensures r == [] || !IsJsonSpace(r[0])
  {
    if s != [] && IsJsonSpace(s[0]) then SkipSpace(s[1..]) else s
  }

  // ---------------------------------------------------------------------
  // Lists of strings
  // ---------------------------------------------------------------------

  function Items(xs: seq<string>): string {
    if xs == [] then ""
    else if |xs| == 1 then EncodeString(xs[0])
    else EncodeString(xs[0]) + ", " + Items(xs[1..])
  }

  /** `json.dumps(xs)` for a list of strings: `["a", "b"]`. */
  function EncodeStringList(xs: seq<string>): string {
    "[" + Items(xs) + "]"
  }

  function ParseItems(s: string): (r: Option<(seq<string>, string)>)
    ensures r.Some? ==> |r.value.1| < |s|
    decreases |s|
  {
    match ParseString(s)
    case None => None
    case Some((x, after)) =>
      var t := SkipSpace(after);
      if t == [] then None
      else if t[0] == ']' then Some(([x], t[1..]))
      else if t[0] == ',' then
        match ParseItems(SkipSpace(t[1..]))
        case None => None
        case Some((xs, rest)) => Some(([x] + xs, rest))
      else None
  }

  function ParseStringList(s: string): (r: Option<(seq<string>, string)>)
    ensures r.Some? ==> |r.value.1| < |s|
  {
    if s == [] || s[0] != '[' then None
    else
      var t := SkipSpace(s[1..]);
      if t != [] && t[0] == ']' then Some(([], t[1..])) else ParseItems(t)
  }

  /** A comma and a blank before a token that is not blank are skipped as one separator. */
  lemma SkipSeparator(sep: char, u: string)
    requires !IsJsonSpace(sep) && u != [] && !IsJsonSpace(u[0])
    ensures SkipSpace([sep, ' '] + u) == [sep, ' '] + u
    ensures SkipSpace(([sep, ' '] + u)[1..]) == u
  {
    assert ([sep, ' '] + u)[1..][1..] == u;
  }

  lemma ItemsLast(x: string, rest: string)
    ensures ParseItems(EncodeString(x) + "]" + rest) == Some(([x], rest))
  {
    assert EncodeString(x) + "]" + rest == EncodeString(x) + ("]" + rest);
    StringRoundTrip(x, "]" + rest);
  }

  lemma ItemsNext(x: string, u: string, xs: seq<string>, rest: string)
    requires u != [] && u[0] == '"'
    requires ParseItems(u) == Some((xs, rest))
    ensures ParseItems(EncodeString(x) + ", " + u) == Some(([x] + xs, rest))
  {
    var after := [',', ' '] + u;
    assert EncodeString(x) + ", " + u == EncodeString(x) + after;
    StringRoundTrip(x, after);
    SkipSeparator(',', u);
    var t := SkipSpace(after);
    assert t == after && t[0] == ',';
    assert SkipSpace(t[1..]) == u;
  }

  lemma {:induction false} ItemsRoundTrip(xs: seq<string>, rest: string)
    requires xs != []
    ensures ParseItems(Items(xs) + "]" + rest) == Some((xs, rest))
  {
    if |xs| == 1 {
      ItemsOne(xs, rest);
    } else {
      ItemsRoundTrip(xs[1..], rest);
      ItemsMore(xs, rest);
    }
  }

  lemma ItemsOne(xs: seq<string>, rest: string)
    requires |xs| == 1
    ensures ParseItems(Items(xs) + "]" + rest) == Some((xs, rest))
  {
    ItemsLast(xs[0], rest);
    assert Items(xs) == EncodeString(xs[0]);
    assert xs == [xs[0]];
  }

  /** The list reads back when the list of all items but the first does. */
  lemma ItemsMore(xs: seq<string>, rest: string)
    requires |xs| > 1 && ParseItems(Items(xs[1..]) + "]" + rest) == Some((xs[1..], rest))
    ensures ParseItems(Items(xs) + "]" + rest) == Some((xs, rest))
  {
    var u := Items(xs[1..]) + "]" + rest;
    ItemsSplit(xs, rest);
    ItemsNext(xs[0], u, xs[1..], rest);
    assert [xs[0]] + xs[1..] == xs;
  }

  /** A list of two or more items is its first item, a separator, and the list of the others. */
  lemma ItemsSplit(xs: seq<string>, rest: string)
    requires |xs| > 1
    ensures var u := Items(xs[1..]) + "]" + rest;
      u != [] && u[0] == '"' && Items(xs) + "]" + rest == EncodeString(xs[0]) + ", " + u
  {
    var head := EncodeString(xs[0]) + ", ";
    var b := Items(xs[1..]);
    assert Items(xs) == head + b;
    ItemsStartWithQuote(xs[1..], "]");
    Associate(head, b, "]");
    Associate(head, b + "]", rest);
  }

  lemma ItemsStartWithQuote(xs: seq<string>, rest: string)
    requires xs != []
    ensures (Items(xs) + rest)[0] == '"'
  {
  }

  /** Decoding the text `json.dumps` wrote for a list gives the list back. */
  lemma StringListRoundTrip(xs: seq<string>, rest: string)
    ensures ParseStringList(EncodeStringList(xs) + rest) == Some((xs, rest))
  {
    var s := EncodeStringList(xs) + rest;
    if xs == [] {
      assert s[1..] == "]" + rest;
    } else {
      assert s[1..] == Items(xs) + "]" + rest;
      ItemsStartWithQuote(xs, "]" + rest);
      ItemsRoundTrip(xs, rest);
    }
  }

  // ---------------------------------------------------------------------
  // Objects
  // ---------------------------------------------------------------------

  /** The reader `value` gets back every value the writer `enc` writes, whatever follows. */
  ghost predicate Inverts<V(!new)>(value: string -> Option<(V, string)>, enc: V -> string) {
    forall v, rest :: value(enc(v) + rest) == Some((v, rest))
  }

  function Members<V>(m: map<string, V>, ks: seq<string>, enc: V -> string): string
    requires forall k :: k in ks ==> k in m
  {
    if ks == [] then ""
    else
      var member := EncodeString(ks[0]) + ": " + enc(m[ks[0]]);
      if |ks| == 1 then member else member + ", " + Members(m, ks[1..], enc)
  }

  /** `json.dumps(m)` for a dict whose values `enc` writes: `{"k": v, ...}`. */
  function EncodeObject<V>(m: map<string, V>, enc: V -> string): string {
    OrderedKeysSorted(m.Keys);
    "{" + Members(m, OrderedKeys(m.Keys), enc) + "}"
  }

  /**
   * Reads members up to the closing brace; a key read twice keeps its last
   * value, as in `json.loads`. A reader that consumes nothing is refused,
   * which no reader of a JSON value does.
   */
  function ParseMembers<V>(s: string, value: string -> Option<(V, string)>): (r: Option<(map<string, V>, string)>)
    ensures r.Some? ==> |r.value.1| < |s|
    decreases |s|
  {
    match ParseString(s)
    case None => None
    case Some((k, afterKey)) =>
      var t := SkipSpace(afterKey);
      if t == [] || t[0] != ':' then None
      else
        var vs := SkipSpace(t[1..]);
        match value(vs)
        case None => None
        case Some((v, afterValue)) =>
          var u := SkipSpace(afterValue);
          if |afterValue| >= |vs| || u == [] then None
          else if u[0] == '}' then Some((map[k := v], u[1..]))
          else if u[0] == ',' then
            match ParseMembers(SkipSpace(u[1..]), value)
            case None => None
            case Some((m, rest)) => Some((if k in m then m else m[k := v], rest))
          else None
  }

  function ParseObject<V>(s: string, value: string -> Option<(V, string)>): (r: Option<(map<string, V>, string)>)
    ensures r.Some? ==> |r.value.1| < |s|
  {
    if s == [] || s[0] != '{' then None
    else
      var t := SkipSpace(s[1..]);
      if t != [] && t[0] == '}' then Some((map[], t[1..])) else ParseMembers(t, value)
  }

  lemma MembersStartWithQuote<V>(m: map<string, V>, ks: seq<string>, enc: V -> string, rest: string)
    requires ks != [] && forall k :: k in ks ==> k in m
    ensures |Members(m, ks, enc) + rest| > 0 && (Members(m, ks, enc) + rest)[0] == '"'
  {
  }

  /** The text after a member's key: the colon, the written value and what follows. */
  lemma MemberHead<V(!new)>(k: string, v: V, enc: V -> string, value: string -> Option<(V, string)>, after: string)
    requires Inverts(value, enc) && StartsSolid(enc)
    ensures ParseString(EncodeString(k) + ": " + enc(v) + after) == Some((k, [':', ' '] + (enc(v) + after)))
    ensures SkipSpace([':', ' '] + (enc(v) + after)) == [':', ' '] + (enc(v) + after)
    ensures SkipSpace(([':', ' '] + (enc(v) + after))[1..]) == enc(v) + after
    ensures value(enc(v) + after) == Some((v, after))
  {
    assert EncodeString(k) + ": " + enc(v) + after == EncodeString(k) + ([':', ' '] + (enc(v) + after));
    StringRoundTrip(k, [':', ' '] + (enc(v) + after));
    assert (enc(v) + after)[0] == enc(v)[0];
    SkipSeparator(':', enc(v) + after);
  }

  lemma MembersLast<V(!new)>(k: string, v: V, enc: V -> string, value: string -> Option<(V, string)>, rest: string)
    requires Inverts(value, enc) && StartsSolid(enc)
    ensures ParseMembers(EncodeString(k) + ": " + enc(v) + "}" + rest, value) == Some((map[k := v], rest))
  {
    MemberHead(k, v, enc, value, "}" + rest);
    assert EncodeString(k) + ": " + enc(v) + "}" + rest == EncodeString(k) + ": " + enc(v) + ("}" + rest);
  }

  lemma MembersNext<V(!new)>(k: string, v: V, enc: V -> string, value: string -> Option<(V, string)>,
                             u: string, m: map<string, V>, rest: string)
    requires Inverts(value, enc) && StartsSolid(enc)
    requires u != [] && u[0] == '"'
    requires ParseMembers(u, value) == Some((m, rest))
    ensures ParseMembers(EncodeString(k) + ": " + enc(v) + ", " + u, value)
            == Some((if k in m then m else m[k := v], rest))
  {
    MemberHead(k, v, enc, value, [',', ' '] + u);
    assert EncodeString(k) + ": " + enc(v) + ", " + u == EncodeString(k) + ": " + enc(v) + ([',', ' '] + u);
    SkipSeparator(',', u);
    var afterValue := [',', ' '] + u;
    assert SkipSpace(afterValue) == afterValue && afterValue[0] == ',';
    assert SkipSpace(afterValue[1..]) == u;
  }

  lemma MembersUnfold<V>(m: map<string, V>, ks: seq<string>, enc: V -> string)
    requires |ks| > 1 && forall k :: k in ks ==> k in m
    ensures Members(m, ks, enc) == EncodeString(ks[0]) + ": " + enc(m[ks[0]]) + ", " + Members(m, ks[1..], enc)
  {
  }

  /** The entries of `m` whose keys are listed in `ks`. */
  function Restricted<V>(m: map<string, V>, ks: seq<string>): (r: map<string, V>)
    requires forall k :: k in ks ==> k in m
    ensures r.Keys == set k | k in ks
    ensures forall k :: k in r ==> r[k] == m[k]
  {
    map k | k in ks :: m[k]
  }

  /** The entries of `m` for the keys of `ks`, built from the first key and the rest. */
  lemma Restrict<V>(m: map<string, V>, ks: seq<string>)
    requires ks != [] && ks[0] !in ks[1..] && forall k :: k in ks ==> k in m
    ensures ks[0] !in Restricted(m, ks[1..])
    ensures Restricted(m, ks[1..])[ks[0] := m[ks[0]]] == Restricted(m, ks)
  {
    var tail := Restricted(m, ks[1..]);
    var whole := Restricted(m, ks);
    assert forall k :: k in ks <==> k == ks[0] || k in ks[1..] by {
      assert ks == [ks[0]] + ks[1..];
    }
    assert tail[ks[0] := m[ks[0]]].Keys == whole.Keys;
  }

  /** After the opening bracket come the contents, the closing bracket and what follows. */
  lemma DropOpen(open: char, close: char, text: string, rest: string)
    ensures ([open] + text + [close] + rest)[1..] == text + ([close] + rest)
  {
    assert ([open] + text + [close] + rest)[1..] == text + [close] + rest;
  }

  lemma Associate(a: string, b: string, c: string)
    ensures a + b + c == a + (b + c)
  {
  }

  lemma {:induction false} MembersRoundTrip<V(!new)>(m: map<string, V>, ks: seq<string>, enc: V -> string,
                                                     value: string -> Option<(V, string)>, rest: string)
    requires Inverts(value, enc) && StartsSolid(enc)
    requires ks != [] && forall k :: k in ks ==> k in m
    requires forall i, j :: 0 <= i < j < |ks| ==> ks[i] != ks[j]
    ensures ParseMembers(Members(m, ks, enc) + "}" + rest, value)
            == Some((Restricted(m, ks), rest))
  {
    var k := ks[0];
    if |ks| == 1 {
      MembersLast(k, m[k], enc, value, rest);
      assert Members(m, ks, enc) == EncodeString(k) + ": " + enc(m[k]);
      assert ks == [k];
      assert Restricted(m, ks) == map[k := m[k]];
    } else {
      var u := Members(m, ks[1..], enc) + "}" + rest;
      MembersSplit(m, ks, enc, rest);
      MembersRoundTrip(m, ks[1..], enc, value, rest);
      MembersNext(k, m[k], enc, value, u, Restricted(m, ks[1..]), rest);
      HeadNotInTail(ks);
      Restrict(m, ks);
    }
  }

  /** The members of two or more keys are the first member, a separator, and the members of the others. */
  lemma MembersSplit<V>(m: map<string, V>, ks: seq<string>, enc: V -> string, rest: string)
    requires |ks| > 1 && forall k :: k in ks ==> k in m
    ensures var u := Members(m, ks[1..], enc) + "}" + rest;
      u != [] && u[0] == '"'
      && Members(m, ks, enc) + "}" + rest == EncodeString(ks[0]) + ": " + enc(m[ks[0]]) + ", " + u
  {
    var k := ks[0];
    var u := Members(m, ks[1..], enc) + "}" + rest;
    MembersStartWithQuote(m, ks[1..], enc, "}" + rest);
    assert u == Members(m, ks[1..], enc) + ("}" + rest);
    var head := EncodeString(k) + ": " + enc(m[k]) + ", ";
    MembersUnfold(m, ks, enc);
    Associate(Members(m, ks, enc), "}", rest);
    Associate(head, Members(m, ks[1..], enc), "}" + rest);
  }

  /** In a list without repeats the first element is not among the others. */
  lemma HeadNotInTail(ks: seq<string>)
    requires ks != [] && forall i, j :: 0 <= i < j < |ks| ==> ks[i] != ks[j]
    ensures ks[0] !in ks[1..]
    ensures forall i, j :: 0 <= i < j < |ks[1..]| ==> ks[1..][i] != ks[1..][j]
  {
    forall j | 0 <= j < |ks[1..]| ensures ks[1..][j] != ks[0] {
      assert ks[1..][j] == ks[j + 1];
    }
  }

  /** The members of a whole dict, written in the order `ks` lists its keys once each. */
  lemma ObjectBody<V(!new)>(m: map<string, V>, ks: seq<string>, enc: V -> string,
                            value: string -> Option<(V, string)>, rest: string)
    requires Inverts(value, enc) && StartsSolid(enc)
    requires ks != [] && forall k :: k in ks <==> k in m
    requires forall i, j :: 0 <= i < j < |ks| ==> ks[i] != ks[j]
    ensures SkipSpace(Members(m, ks, enc) + ("}" + rest)) == Members(m, ks, enc) + ("}" + rest)
    ensures (Members(m, ks, enc) + ("}" + rest))[0] != '}'
    ensures ParseMembers(Members(m, ks, enc) + ("}" + rest), value) == Some((m, rest))
  {
    var body := Members(m, ks, enc) + ("}" + rest);
    MembersStartWithQuote(m, ks, enc, "}" + rest);
    QuoteIsSolid(body);
    MembersRoundTrip(m, ks, enc, value, rest);
    Associate(Members(m, ks, enc), "}", rest);
    RestrictedWhole(m, ks);
  }

  /** Text starting with a quote has no leading whitespace to skip. */
  lemma QuoteIsSolid(s: string)
    requires s != [] && s[0] == '"'
    ensures SkipSpace(s) == s
  {
  }

  /** Restricting a dict to a list of all its keys gives the dict. */
  lemma RestrictedWhole<V>(m: map<string, V>, ks: seq<string>)
    requires forall k :: k in ks <==> k in m
    ensures Restricted(m, ks) == m
  {
  }

  /** Keys listed in `Precedes` order appear once each. */
  lemma DistinctKeys(ks: seq<string>)
    requires forall i, j :: 0 <= i < j < |ks| ==> Precedes(ks[i], ks[j])
    ensures forall i, j :: 0 <= i < j < |ks| ==> ks[i] != ks[j]
  {
    forall i, j | 0 <= i < j < |ks| ensures ks[i] != ks[j] {
      PrecedesAsymmetric(ks[i], ks[j]);
    }
  }

  /** Decoding the text `json.dumps` wrote for a dict gives the dict back. */
  lemma ObjectRoundTrip<V(!new)>(m: map<string, V>, enc: V -> string,
                                 value: string -> Option<(V, string)>, rest: string)
    requires Inverts(value, enc) && StartsSolid(enc)
    ensures ParseObject(EncodeObject(m, enc) + rest, value) == Some((m, rest))
  {
    var ks := OrderedKeys(m.Keys);
    OrderedKeysSorted(m.Keys);
    var s := EncodeObject(m, enc) + rest;
    if ks == [] {
      assert m == map[] by {
        assert |m.Keys| == |ks|;
      }
      assert s[1..] == "}" + rest;
    } else {
      var body := Members(m, ks, enc) + ("}" + rest);
      assert s[1..] == body by {
        var text := Members(m, ks, enc);
        assert EncodeObject(m, enc) == "{" + text + "}";
        DropOpen('{', '}', text, rest);
      }
      DistinctKeys(ks);
      ObjectBody(m, ks, enc, value, rest);
      assert s[0] == '{';
      OpenedObject(s, value);
    }
  }

  /** After the opening brace and no blank, a text that does not close at once is read as members. */
  lemma OpenedObject<V>(s: string, value: string -> Option<(V, string)>)
    requires s != [] && s[0] == '{' && SkipSpace(s[1..]) == s[1..] && s[1..] != [] && s[1] != '}'
    ensures ParseObject(s, value) == ParseMembers(s[1..], value)
  {
  }

  /** Every written value starts with a character the reader does not skip. */
  ghost predicate StartsSolid<V(!new)>(enc: V -> string) {
    forall v :: enc(v) != [] && !IsJsonSpace(enc(v)[0])
  }

  // ---------------------------------------------------------------------
  // The shapes kept in the job columns
  // ---------------------------------------------------------------------

  /** A speaker's voice settings: key to text value. */
  function EncodeFlat(m: map<string, string>): string {
    EncodeObject(m, EncodeString)
  }

  function ReadFlat(s: string): (r: Option<(map<string, string>, string)>)
    ensures r.Some? ==> |r.value.1| < |s|
  {
    ParseObject(s, ParseString)
  }

  /** Speaker name to voice settings, the `voice_assignments` column. */
  function EncodeAssignments(a: map<string, map<string, string>>): string {
    EncodeObject(a, EncodeFlat)
  }

  function ReadAssignments(s: string): Option<(map<string, map<string, string>>, string)> {
    ParseObject(s, ReadFlat)
  }

  /** `json.loads`: one value, with only whitespace around it. */
  function Decode<T>(s: string, reader: string -> Option<(T, string)>): (r: Option<T>) {
    match reader(SkipSpace(s))
    case None => None
    case Some((v, rest)) => if SkipSpace(rest) == [] then Some(v) else None
  }

  lemma StringReader()
    ensures Inverts(ParseString, EncodeString) && StartsSolid(EncodeString)
  {
    forall v: string, rest: string ensures ParseString(EncodeString(v) + rest) == Some((v, rest)) {
      StringRoundTrip(v, rest);
    }
  }

  lemma FlatReader()
    ensures Inverts(ReadFlat, EncodeFlat) && StartsSolid(EncodeFlat)
  {
    StringReader();
    forall v: map<string, string>, rest: string ensures ReadFlat(EncodeFlat(v) + rest) == Some((v, rest)) {
      ObjectRoundTrip(v, EncodeString, ParseString, rest);
    }
  }

  /** The `output_files` and `chapters` columns read back as the lists written. */
  lemma StringListColumnRoundTrip(xs: seq<string>)
    ensures Decode(EncodeStringList(xs), ParseStringList) == Some(xs)
  {
    var s := EncodeStringList(xs);
    StringListRoundTrip(xs, []);
    assert s + [] == s && s[0] == '[';
    DecodeWhole(s, ParseStringList, xs);
  }

  /** The `voice_assignments` column reads back as the assignments written. */
  lemma AssignmentsColumnRoundTrip(a: map<string, map<string, string>>)
    ensures Decode(EncodeAssignments(a), ReadAssignments) == Some(a)
  {
    var s := EncodeAssignments(a);
    FlatReader();
    ObjectRoundTrip(a, EncodeFlat, ReadFlat, []);
    assert s + [] == s && s[0] == '{';
    DecodeWhole(s, ReadAssignments, a);
  }

  /** A value read from text that starts solid and leaves nothing behind decodes. */
  lemma DecodeWhole<T>(s: string, reader: string -> Option<(T, string)>, v: T)
    requires s != [] && !IsJsonSpace(s[0]) && reader(s) == Some((v, []))
    ensures Decode(s, reader) == Some(v)
  {
  }
}
